/** The deployment engine of src/grid_client/mod.rs. Every method returns, as a ghost result, the
    trace it added to the world, and is specified by what that trace may be. */
module GridClients {
  import opened GridErrors
  import opened Text
  import opened HexCodec
  import opened Deployments
  import opened Addresses
  import opened Builders
  import opened DeployTrace
  import opened Retries
  import opened GridWorld
  import opened Placement
  import opened Ports

  class GridClient {
    const world: World
    const crypto: Crypto
    const twinId: nat

    constructor (world: World, crypto: Crypto, twinId: nat)
      ensures this.world == world && this.crypto == crypto && this.twinId == twinId
    {
      this.world, this.crypto, this.twinId := world, crypto, twinId;
    }

    /** Polls the grid proxy for the contract; a time-out comes no earlier than after 45 s. */
    method WaitForContract(node: nat, hash: string) returns (r: Result<nat>, ghost tr: seq<Event>)
      modifies world`now
      ensures world.now >= old(world.now)
      ensures WaitSpec(node, hash, tr, r)
      ensures world.now >= old(world.now) + 45_000 || r.Ok? || BadLookup(tr[|tr| - 1])
    {
      tr := [];
      var began := world.Now();
      var deadline := began + 45_000;
      ghost var polls := 0;
      while true
        invariant Undecided(Looking(node, hash), tr)
        invariant Count(tr, IsLooked) == polls <= 45
        invariant old(world.now) <= began && began + 1_000 * polls <= world.now
        decreases 46 - polls
      {
        var reply := world.LookUpContracts(node, hash);
        ghost var e := Looked(node, hash, reply);
        CountPush(tr, e, IsLooked);
        UndecidedPush(Looking(node, hash), tr, e);
        tr, polls := tr + [e], polls + 1;
        match reply {
          case Unreachable(error) => return Err(Backend(error.Display())), tr;
          case BadBody(error) => return Err(error), tr;
          case Listed(ids) => if ids != [] { return Ok(ids[0]), tr; }
          case BadStatus =>
        }
        var t := world.Now();
        if t >= deadline { return Err(Backend("timed out waiting for contract " + hash)), tr; }
        world.Sleep(1_000);
        CountPush(tr, Slept(1_000), IsLooked);
        UndecidedPush(Looking(node, hash), tr, Slept(1_000));
        tr := tr + [Slept(1_000)];
      }
    }

    /** Sends the deployment and polls until the node shows it: at most ten sends, and at most
        sixteen reads after each. */
    method DeployAndConfirm(twin: nat, d: DeployDeployment) returns (r: Result<()>, ghost tr: seq<Event>)
      modifies world`now
      ensures world.now >= old(world.now)
      ensures ConfirmSpec(twin, d, tr, r)
      ensures r.Ok? || (exists e :: e in tr && FailsOtherwise(e)) || world.now >= old(world.now) + 320_000
    {
      hide Contains, FailsOtherwise;
      tr := [];
      for attempt := 0 to 10
        invariant world.now >= old(world.now) + 32_000 * attempt
        invariant Rounds(twin, d, tr, attempt)
      {
        var sent := world.DeployCall(twin, d);
        ghost var e := Sent(twin, d, sent);
        if sent.Err? && sent.error.Backend? && Contains(sent.error.message, "exists") {
          SendConfirms(twin, d, tr, e, attempt);
          return Ok(()), tr + [e];
        }
        world.Sleep(2_000);
        var v, polls := PollUntilVisible(twin, d);
        RoundEnds(twin, d, tr, e, attempt, polls, v);
        tr := tr + [e, Slept(2_000)] + polls;
        match v {
          case Visible => return Ok(()), tr;
          case Failed(error) =>
            assert polls[|polls| - 1] in polls && polls[|polls| - 1] in tr;
            return Err(error), tr;
          case StillMissing =>
        }
      }
      return Err(Backend("deployment " + Decimal(d.contractId) + " did not appear on node")), tr;
    }

    /** The inner loop of `deploy_and_confirm`: reads for at least 30 s, at most sixteen times. */
    method PollUntilVisible(twin: nat, d: DeployDeployment) returns (v: Visibility, ghost tr: seq<Event>)
      modifies world`now
      ensures world.now >= old(world.now)
      ensures PollSpec(twin, d, tr, v)
      ensures v.Failed? <==> FailsOtherwise(tr[|tr| - 1])
      ensures v.StillMissing? ==> world.now >= old(world.now) + 30_000
    {
      hide Retryable, Contains, FailsOtherwise, Polling, PollSpec;
      tr := [];
      PollingBegins(twin, d);
      var began := world.Now();
      var deadline := began + 30_000;
      ghost var gets := 0;
      while true
        invariant Polling(twin, d, tr, gets) && gets <= 15
        invariant old(world.now) <= began && began + 2_000 * gets <= world.now
        decreases 16 - gets
      {
        var got := world.ContractCall(twin, GET, d.contractId);
        ghost var e := Got(twin, d.contractId, got);
        FatalIff(e);
        v := if got.Ok? then Visible else if !Retryable(GET, got.error) then Failed(got.error) else StillMissing;
        PollEnds(twin, d, tr, e, gets, v);
        if got.Ok? { return v, tr + [e]; }
        if !Retryable(GET, got.error) { return v, tr + [e]; }
        var t := world.Now();
        if t >= deadline { return v, tr + [e]; }
        world.Sleep(2_000);
        PollPush(twin, d, tr, e, gets);
        PollPush(twin, d, tr + [e], Slept(2_000), gets + 1);
        tr, gets := tr + [e] + [Slept(2_000)], gets + 1;
      }
    }

    /** The scan both pollers share: a terminal state settles at once, one distinct ok name at the end. */
    method IsSettled(ws: seq<DeployWorkload>) returns (b: bool)
      ensures b <==> Settled(ws)
    {
      var okNames: set<string> := {};
      for i := 0 to |ws|
        invariant okNames == OkNames(ws[..i])
        invariant forall j :: 0 <= j < i ==> !Terminal(ws[j].result.state)
      {
        assert ws[..i + 1] == ws[..i] + [ws[i]];
        if ws[i].result.state == "ok" {
          okNames := okNames + {ws[i].name};
        } else if Terminal(ws[i].result.state) {
          return true;
        }
      }
      assert ws[..|ws|] == ws;
      return ws != [] && |okNames| == 1;
    }

    /** `workloads_from_get`. */
    method WorkloadsFromGet(twin: nat, id: nat, deadline: nat)
      returns (r: Result<Option<seq<DeployWorkload>>>, ghost e: Event)
      modifies world`now
      ensures world.now >= old(world.now)
      ensures e.Got? && e.twin == twin && e.id == id
      ensures r.Ok? && r.value.Some? <==> Settles(e)
      ensures Settles(e) ==> ExtractWorkloads(e.got.value) == Ok(r.value.value)
      ensures Breaks(e) ==> r == Err(BreakError(e))
      ensures r.Err? && !Breaks(e) ==> r.error.Backend? && world.now >= deadline
      ensures FailsOtherwise(e) ==> r == Err(e.got.error)
      ensures e.got.Err? && !FailsOtherwise(e) ==> r == Ok(None) || world.now >= deadline
    {
      hide Settled, Retryable, ExtractWorkloads, StillWorking;
      var got := world.ContractCall(twin, GET, id);
      e := Got(twin, id, got);
      BreaksIff(e);
      if got.Ok? {
        var ws := ExtractWorkloads(got.value);
        if ws.Err? { return Err(ws.error), e; }
        var settled := IsSettled(ws.value);
        return Ok(if settled then Some(ws.value) else None), e;
      }
      if !Retryable(GET, got.error) { return Err(got.error), e; }
      var t := world.Now();
      if t >= deadline {
        return Err(Backend("timed out waiting for deployment get for contract " + Decimal(id))), e;
      }
      return Ok(None), e;
    }

    /** One poll of the changes; `ask` says whether the deployment itself is to be read as well. */
    method WorkloadsFromChanges(twin: nat, id: nat)
      returns (r: Result<Option<seq<DeployWorkload>>>, ask: bool, ghost e: Event)
      modifies world`now
      ensures world.now >= old(world.now)
      ensures e.Polled? && e.twin == twin && e.id == id
      ensures r.Ok? && r.value.Some? <==> Settles(e)
      ensures Settles(e) ==> ExtractWorkloads(e.got.value) == Ok(r.value.value)
      ensures if Breaks(e) then r == Err(BreakError(e)) else r.Ok?
      ensures e.got.Err? ==> if FailsOtherwise(e) then r == Err(e.got.error) else r == Ok(None) && ask
    {
      hide Settled, Retryable, ExtractWorkloads, StillWorking;
      var reply := world.ContractCall(twin, CHANGES, id);
      e := Polled(twin, id, reply);
      BreaksIff(e);
      if reply.Err? {
        if !Retryable(CHANGES, reply.error) { return Err(reply.error), false, e; }
        return Ok(None), true, e;
      }
      var ws := ExtractWorkloads(reply.value);
      if ws.Err? { return Err(ws.error), false, e; }
      var settled := IsSettled(ws.value);
      return Ok(if settled then Some(ws.value) else None), ws.value == [], e;
    }

    /** Polls the node until the workloads settle: at most 91 polls and 91 reads. A wait that neither
        settles nor breaks takes at least 180 s. */
    method WaitForWorkloads(twin: nat, id: nat) returns (r: Result<seq<DeployWorkload>>, ghost tr: seq<Event>)
      modifies world`now
      ensures world.now >= old(world.now)
      ensures SettleSpec(twin, id, tr, r)
      ensures r.Ok? || (exists e :: e in tr && (FailsOtherwise(e) || Unreadable(e)))
              || world.now >= old(world.now) + 180_000
    {
      hide FailsOtherwise, Unreadable;
      hide Settles, Breaks, BreakError, ExtractWorkloads, SettleSpec, Unsettled, Decimal;
      tr := [];
      UnsettledAtFirst(twin, id);
      forall e ensures Breaks(e) <==> FailsOtherwise(e) || Unreadable(e) { BreaksIff(e); }
      var began := world.Now();
      var deadline := began + 180_000;
      ghost var polls, gets := 0, 0;
      while true
        invariant Unsettled(twin, id, tr, polls, gets) && gets <= polls <= 90
        invariant old(world.now) <= began && began + 2_000 * polls <= world.now
        decreases 91 - polls
      {
        var changes, ask, e := WorkloadsFromChanges(twin, id);
        if changes.Err? {
          BreaksNow(twin, id, tr, e, polls, gets);
          assert e in tr + [e];
          return Err(changes.error), tr + [e];
        }
        if changes.value.Some? {
          SettlesNow(twin, id, tr, e, polls, gets);
          return Ok(changes.value.value), tr + [e];
        }
        UnsettledPush(twin, id, tr, e, polls, gets);
        tr, polls := tr + [e], polls + 1;
        if ask {
          var fromGet, g := WorkloadsFromGet(twin, id, deadline);
          if fromGet.Err? {
            StopsUnsettled(twin, id, tr, g, polls, gets, fromGet.error);
            assert g in tr + [g];
            return Err(fromGet.error), tr + [g];
          }
          if fromGet.value.Some? {
            SettlesNow(twin, id, tr, g, polls, gets);
            return Ok(fromGet.value.value), tr + [g];
          }
          UnsettledPush(twin, id, tr, g, polls, gets);
          tr, gets := tr + [g], gets + 1;
        }
        var t := world.Now();
        if t >= deadline {
          r := Err(Backend("timed out waiting for deployment changes for contract " + Decimal(id)));
          TimesOut(twin, id, tr, polls, gets, r.error);
          return;
        }
        world.Sleep(2_000);
        SleepIsQuiet();
        UnsettledPush(twin, id, tr, Slept(2_000), polls, gets);
        tr := tr + [Slept(2_000)];
      }
    }

    /** The passage both deploy paths use for the network and for the machine: sign, anchor on chain,
        find the contract, remember it in `created`, send, and wait for the workloads. */
    method AnchorAndSettle(node: ProxyNode, unsigned: DeployDeployment, created: seq<nat>, what: string)
      returns (r: Result<Settlement>, created': seq<nat>, ghost s: Stage)
      requires unsigned.signatures == []
      modifies world
      ensures Run(old(world.chain), StageEvents(s), world.chain)
      ensures created' == created + StageIds(s)
      ensures s != [] ==> StageSpec(crypto, twinId, node.nodeId, node.twinId, s)
      ensures HashHex(crypto, unsigned).Ok? ==> s != []
      ensures s != [] ==> s[0].Anchor? && s[0].deployment == unsigned.(signatures := s[0].deployment.signatures)
      ensures Finished(s) && (r.Ok? <==> Complete(s))
      ensures r.Ok? ==> r.value == Settlement(s[1].found.value, s[3].settled.value)
    {
      var found: Result<(nat, DeployDeployment)>;
      found, created', s := AnchorAndFind(node, unsigned, created, what);
      if found.Err? { return Err(found.error), created', s; }
      var (id, d) := found.value;
      var confirmed, confirm := DeployAndConfirm(node.twinId, d);
      s := PushLeg(node, s, Confirm(confirm, confirmed), old(world.chain), world.chain, world.chain);
      if confirmed.Err? { return Err(confirmed.error.Within("deploy " + what + " over RMB")), created', s; }
      var settled, settle := WaitForWorkloads(node.twinId, id);
      s := PushLeg(node, s, Settle(settle, settled), old(world.chain), world.chain, world.chain);
      if settled.Err? { return Err(settled.error.Within("wait " + what + " workloads")), created', s; }
      return Ok(Settlement(id, settled.value)), created', s;
    }

    method AnchorAndFind(node: ProxyNode, unsigned: DeployDeployment, created: seq<nat>, what: string)
      returns (r: Result<(nat, DeployDeployment)>, created': seq<nat>, ghost s: Stage)
      requires unsigned.signatures == []
      modifies world
      ensures Run(old(world.chain), StageEvents(s), world.chain)
      ensures created' == created + StageIds(s)
      ensures s != [] ==> StageSpec(crypto, twinId, node.nodeId, node.twinId, s)
      ensures HashHex(crypto, unsigned).Ok? ==> s != []
      ensures s != [] ==> s[0].Anchor? && s[0].deployment == unsigned.(signatures := s[0].deployment.signatures)
      ensures |s| <= 2 && (r.Ok? <==> |s| == 2 && s[1].Wait? && s[1].Good())
      ensures r.Err? && s != [] ==> !s[|s| - 1].Good()
      ensures r.Ok? ==> r.value == (s[1].found.value, s[0].deployment.(contractId := s[1].found.value))
    {
      created', s := created, [];
      var signed := SignDeployment(crypto, unsigned, twinId);
      if signed.Err? { return Err(signed.error), created', s; }
      var d := signed.value;
      var hash := DeploymentHashHex(crypto, d);
      HashIgnoresLaterFields(crypto, unsigned, d);  // so the hash signed is the hash anchored, and it exists
      var submitted, create := world.CreateNodeContract(node.nodeId, hash.value, d.metadata,
                                                        PublicIpCount(d.workloads));
      s := PushLeg(node, s, Anchor(d, hash.value, create), old(world.chain), old(world.chain), world.chain);
      if submitted.Err? { return Err(submitted.error.Within("create " + what + " contract")), created', s; }
      var found, wait := WaitForContract(node.nodeId, hash.value);
      s := PushLeg(node, s, Wait(wait, found), old(world.chain), world.chain, world.chain);
      if found.Err? { return Err(found.error), created', s; }
      created' := created + [found.value];
      return Ok((found.value, d.(contractId := found.value))), created', s;
    }

    /** Extends a stage by the leg just completed. */
    ghost method PushLeg(node: ProxyNode, s: Stage, l: Leg, start: Chain, before: Chain, after: Chain)
      returns (s': Stage)
      requires if s == [] then AnchorSpec(crypto, twinId, node.nodeId, l)
               else && StageSpec(crypto, twinId, node.nodeId, node.twinId, s) && s[|s| - 1].Good()
                    && Follows(node.nodeId, node.twinId, s + [l], |s|)
      requires Run(start, StageEvents(s), before)
      requires if l.Anchor? then Admissible(before, l.create) && after == Step(before, l.create) else after == before
      ensures s' == s + [l] && StageSpec(crypto, twinId, node.nodeId, node.twinId, s')
      ensures Run(start, StageEvents(s'), after)
    {
      s' := s + [l];
      StagePush(crypto, twinId, node.nodeId, node.twinId, s, l);
      if l.Anchor? {
        RunPush(start, StageEvents(s), before, l.create);
      } else {
        LegIsQuiet(node.nodeId, node.twinId, s', |s|);
        QuietRun(before, l.Events());
        RunAppend(start, StageEvents(s), before, l.Events(), after);
      }
    }

    method GetFreeWgPort(twin: nat) returns (r: Result<nat>, ghost e: Event)
      modifies world`now
      ensures world.now >= old(world.now)
      ensures e.AskedPorts? && e.twin == twin
      ensures r.Err? <==> e.ports.Err? || AllUsed(e.ports.value)
      ensures r.Ok? ==> LeastFree(e.ports.value, r.value)
    {
      var used := world.ListPortsCall(twin);
      e := AskedPorts(twin, used);
      if used.Err? { return Err(used.error.Within("load wg ports")), e; }
      r := FreePort(used.value);
    }

    /** What network to create, with a port asked for where one is needed and none was given. */
    method PlanNetwork(twin: nat, request: Request, suffix: nat)
      returns (r: Result<(DeployDeployment, string, string)>, ghost ports: seq<Event>)
      requires request.CreatesNetwork()
      modifies world`now
      ensures ports == [] || (|ports| == 1 && ports[0].AskedPorts? && ports[0].twin == twin)
      ensures ports != [] <==> request.AsksPort() && VmIpFromSubnet(request.Subnet(suffix)).Ok?
      ensures r.Err? <==> PlanFails(request, suffix, ports)
      ensures r.Ok? ==> && r.value.0.signatures == [] && NetworkBuilt(request, twinId, suffix, ports, r.value.0)
                        && r.value.1 == request.NetworkName(suffix)
                        && Ok(r.value.2) == VmIpFromSubnet(request.Subnet(suffix))
    {
      hide VmIpFromSubnet, DeploymentMetadata, NetworkBuilt, BuildNetwork, BuildNetworkLight;
      ports := [];
      var network: DeployWorkload, name: string, vmIp: Result<string>, kind: string;
      var third := Decimal(10 + suffix % 180);
      if request.LightRequest? {
        var spec := request.lightNetwork.value;
        name := spec.name.GetOr("rust_net_light_" + Decimal(suffix));
        var subnet := spec.subnet.GetOr("10." + third + ".2.0/24");
        vmIp := VmIpFromSubnet(subnet);
        if vmIp.Err? { return Err(vmIp.error), ports; }
        var random := world.RandomBytes(32);
        network, kind := BuildNetworkLight(name, subnet, spec.myceliumKey.GetOr(random)), "network-light";
        LightNetworkBuilt(request, twinId, suffix, ports, spec.myceliumKey.GetOr(random));
      } else {
        var spec := request.network.value;
        name := spec.name.GetOr("rust_net_" + Decimal(suffix));
        var ipRange := spec.ipRange.GetOr("10." + third + ".0.0/16");
        var subnet := spec.subnet.GetOr("10." + third + ".2.0/24");
        vmIp := VmIpFromSubnet(subnet);
        if vmIp.Err? { return Err(vmIp.error), ports; }
        var port := spec.wireguardPort.GetOr(0);
        if spec.wireguardPort.None? {
          var free, e := GetFreeWgPort(twin);
          ports := [e];
          if free.Err? { return Err(free.error), ports; }
          port := free.value;
        }
        var generated := world.WireguardKey();
        network := BuildNetwork(name, ipRange, subnet, spec.wireguardKey.GetOr(generated), port, spec.myceliumKey);
        kind := "network";
        FullNetworkBuilt(request, twinId, suffix, ports, spec.wireguardKey.GetOr(generated), port);
      }
      return Ok((NewDeployment(twinId, DeploymentMetadata(name, kind, "Network"), [network]), name, vmIp.value)), ports;
    }

    /** The first half of an attempt: create the network, or take the existing one. */
    method DeployNetwork(node: ProxyNode, request: Request, suffix: nat, created: seq<nat>)
      returns (r: Result<NetworkInfo>, created': seq<nat>, ghost ports: seq<Event>, ghost s: Stage)
      modifies world
      ensures Run(old(world.chain), ports + StageEvents(s), world.chain)
      ensures created' == created + StageIds(s)
      ensures NetworkSpec(crypto, twinId, request, node.nodeId, node.twinId, suffix, ports, s, r)
    {
      hide NetworkBuilt, PlanFails, StageSpec, Run, HashHex, VmIpFromSubnet;
      created', ports, s := created, [], [];
      QuietRun(world.chain, []);
      if !request.CreatesNetwork() {
        assert ports + StageEvents(s) == [];
        return Ok(NetworkInfo(request.name, request.ip, 0)), created', ports, s;
      }
      var plan: Result<(DeployDeployment, string, string)>;
      plan, ports := PlanNetwork(node.twinId, request, suffix);
      QuietRun(old(world.chain), ports);
      assert ports + StageEvents(s) == ports;
      if plan.Err? { return Err(plan.error), created', ports, s; }
      var (d, name, vmIp) := plan.value;
      NetworkHashes(crypto, request, twinId, suffix, ports, d);
      var settlement: Result<Settlement>;
      settlement, created', s := AnchorAndSettle(node, d, created, "network");
      RunAppend(old(world.chain), ports, old(world.chain), StageEvents(s), world.chain);
      NetworkBuiltUnlessSigned(request, twinId, suffix, ports, d, s[0].deployment);
      if settlement.Err? { return Err(settlement.error), created', ports, s; }
      return Ok(NetworkInfo(name, vmIp, settlement.value.id)), created', ports, s;
    }

    /** The second half: create the machine in that network and read its addresses back. */
    method DeployMachine(node: ProxyNode, request: Request, suffix: nat, network: NetworkInfo, created: seq<nat>)
      returns (r: Result<DeploymentOutcome>, created': seq<nat>, ghost s: Stage, ghost readback: seq<Event>)
      modifies world
      ensures Run(old(world.chain), StageEvents(s) + readback, world.chain)
      ensures created' == created + StageIds(s)
      ensures MachineSpec(crypto, twinId, request, node.nodeId, node.twinId, network, suffix, s, readback, r)
    {
      hide StageSpec, StageEvents, Run, ReadsBack, MachineBuilt, OutcomeOf, HashHex, Request.MachineName;
      readback := [];
      var name, d := BuildMachine(request, suffix, network);
      MachineHashes(crypto, request, twinId, network, suffix, d);
      var settlement: Result<Settlement>;
      settlement, created', s := AnchorAndSettle(node, d, created, "vm");
      MachineBuiltUnlessSigned(request, twinId, network, suffix, d, s[0].deployment);
      ghost var chain := world.chain;
      if settlement.Err? {
        r := Err(settlement.error);
        QuietRun(chain, readback);
      } else {
        var id := settlement.value.id;
        r, readback := ReadBack(node, request, network, id, name, settlement.value.workloads);
        QuietRun(chain, readback);
      }
      RunAppend(old(world.chain), StageEvents(s), chain, readback, chain);
    }

    method BuildMachine(request: Request, suffix: nat, network: NetworkInfo)
      returns (vmName: string, d: DeployDeployment)
      ensures vmName == request.MachineName(suffix)
      ensures d.signatures == [] && MachineBuilt(request, twinId, network, suffix, d)
    {
      hide DeploymentMetadata, VmLightWorkloads, VmWorkloads;
      var workloads: seq<DeployWorkload>, kind: string;
      if request.LightRequest? {
        vmName, kind := request.lightVm.name.GetOr("rust_vm_light_" + Decimal(suffix)), "vm-light";
        var random := world.RandomBytes(6);
        workloads := BuildVmLight(vmName, network.name, network.vmIp, request.lightVm,
                                  request.lightVm.myceliumSeed.GetOr(random));
      } else {
        vmName, kind := request.vm.name.GetOr("rust_vm_" + Decimal(suffix)), "vm";
        workloads := BuildVm(vmName, network.name, network.vmIp, request.vm);
      }
      d := NewDeployment(twinId, DeploymentMetadata(vmName, kind, vmName), workloads);
    }

    /** The final read, from which the outcome's addresses come. */
    method ReadBack(node: ProxyNode, request: Request, network: NetworkInfo, id: nat, vmName: string,
                    settled: seq<DeployWorkload>)
      returns (r: Result<DeploymentOutcome>, ghost tr: seq<Event>)
      modifies world`now
      ensures |tr| == 1 && tr[0].Got? && tr[0].twin == node.twinId && tr[0].id == id
      ensures r.Ok? <==> ReadsBack(vmName, tr, settled)
      ensures r.Ok? ==> r.value == OutcomeOf(request, node.nodeId, node.twinId, network, vmName, id,
                                             ExtractWorkloads(tr[0].got.value).value)
    {
      var got := world.ContractCall(node.twinId, GET, id);
      tr := [Got(node.twinId, id, got)];
      if got.Err? { return Err(got.error.Within("load vm deployment from node")), tr; }
      var reported := ExtractWorkloads(got.value);
      if reported.Err? { return Err(reported.error), tr; }
      var machine := FindByName(reported.value, vmName);
      if machine.None? { return Err(NotFound("vm workload " + vmName)), tr; }
      var data := machine.value.result.data;
      var (v4, v6) := if request.FullRequest? then ResolvePublicIps(reported.value, vmName) else ("", "");
      if exists w :: w in settled && w.result.state == "error" {
        return Err(Backend("vm deployment entered error state")), tr;
      }
      return Ok(DeploymentOutcome(node.nodeId, node.twinId, network.name, network.contractId, vmName, id, network.vmIp,
                                  TextOf(data, "mycelium_ip"), v4, v6, TextOf(data, "console_url"))), tr;
    }

    method DeployOnNodeInner(node: ProxyNode, request: Request, created: seq<nat>)
      returns (r: Result<DeploymentOutcome>, created': seq<nat>, ghost a: Attempt)
      requires created == []
      modifies world
      ensures Run(old(world.chain), BodyEvents(a), world.chain)
      ensures created' == AttemptIds(a) && a.result == r && a.rollback == []
      ensures a.node == node.nodeId && a.twin == node.twinId
      ensures BodySpec(crypto, twinId, request, a)
    {
      hide NetworkSpec, MachineSpec, BodySpec, Run;
      created' := created;
      var suffix := world.UnixSeconds();
      if suffix.Err? {
        r := Err(suffix.error);
        a := Attempt(node.nodeId, node.twinId, 0, [], [], Err(suffix.error), [], [], [], r);
        ClockFails(crypto, twinId, request, a);
        QuietRun(world.chain, []);
      } else {
        ghost var ports, s, vm, readback;
        var network: Result<NetworkInfo>;
        network, created', ports, s := DeployNetwork(node, request, suffix.value, created');
        if network.Err? {
          r := Err(network.error);
          a := Attempt(node.nodeId, node.twinId, suffix.value, ports, s, network, [], [], [], r);
          NetworkFails(crypto, twinId, request, a);
        } else {
          ghost var chain := world.chain;
          r, created', vm, readback := DeployMachine(node, request, suffix.value, network.value, created');
          a := Attempt(node.nodeId, node.twinId, suffix.value, ports, s, network, vm, readback, [], r);
          HalvesMakeBody(crypto, twinId, request, a, old(world.chain), chain, world.chain);
        }
      }
    }

    /** `deploy_vm_light_on_node` and `deploy_vm_on_node`: whatever a failed attempt created and
        observed is torn down again. */
    method DeployOnNode(node: ProxyNode, request: Request) returns (r: Result<DeploymentOutcome>, ghost a: Attempt)
      modifies world
      ensures Run(old(world.chain), AttemptEvents(a), world.chain)
      ensures AttemptSpec(crypto, twinId, request, a)
      ensures a.node == node.nodeId && a.twin == node.twinId && a.result == r
    {
      var created: seq<nat>;
      r, created, a := DeployOnNodeInner(node, request, []);
      if r.Err? {
        ghost var chain := world.chain;
        ghost var tr := RollbackContracts(node.twinId, created);
        RunAppend(old(world.chain), BodyEvents(a), chain, tr, world.chain);
        RollbackMakesAttempt(crypto, twinId, request, a, tr);
        a := a.(rollback := tr);
      } else {
        RollbackMakesAttempt(crypto, twinId, request, a, []);
      }
    }

    /** Newest contract first; the node is asked to drop the deployment, then the chain to cancel. */
    method RollbackContracts(twin: nat, ids: seq<nat>) returns (ghost tr: seq<Event>)
      modifies world
      ensures Run(old(world.chain), tr, world.chain)
      ensures RollbackSpec(twin, ids, tr)
    {
      tr := [];
      assert ids[..|ids|] == ids;
      assert forall rest :: tr + rest == rest;
      for i := |ids| downto 0
        invariant Run(old(world.chain), tr, world.chain)
        invariant forall rest :: RollbackSpec(twin, ids[..i], rest) ==> RollbackSpec(twin, ids, tr + rest)
      {
        var id := ids[i];
        assert ids[..i + 1][..i] == ids[..i];
        if id != 0 {
          var dropped := world.ContractCall(twin, "zos.deployment.delete", id);
          RunPush(old(world.chain), tr, world.chain, Dropped(twin, id, dropped));
          ghost var before := tr;
          ghost var chain := world.chain;
          var _, e := world.CancelContract(id);
          RunPush(old(world.chain), tr + [Dropped(twin, id, dropped)], chain, e);
          tr := tr + [Dropped(twin, id, dropped)] + [e];
          RollbackGrows(twin, ids, i, before, Dropped(twin, id, dropped), e);
        }
      }
      assert tr + [] == tr;
      assert RollbackSpec(twin, ids[..0], []);
    }

    /** `deploy_with_failover`. */
    method DeployWithFailover(candidates: seq<ProxyNode>, request: Request)
      returns (r: Result<DeploymentOutcome>, ghost run: seq<Attempt>)
      modifies world
      ensures Run(old(world.chain), Flatten(run), world.chain)
      ensures FailoverSpec(crypto, twinId, request, candidates, run, r)
    {
      hide AttemptSpec, AttemptEvents, Run;
      QuietRun(world.chain, []);
      run := [];
      var lastErr: Option<GridError> := None;
      for i := 0 to |candidates|
        invariant Run(old(world.chain), Flatten(run), world.chain)
        invariant |run| == i && RunSpec(crypto, twinId, request, candidates, run)
        invariant if i == 0 then lastErr == None else lastErr.Some? && run[i - 1].result == Err(lastErr.value)
      {
        ghost var chain := world.chain;
        var attempted, a := DeployOnNode(candidates[i], request);
        RunAppend(old(world.chain), Flatten(run), chain, AttemptEvents(a), world.chain);
        FlattenPush(run, a);
        RunGrows(crypto, twinId, request, candidates, run, a);
        run := run + [a];
        if attempted.Ok? { return attempted, run; }
        lastErr := Some(attempted.error);
      }
      return Err(lastErr.GetOr(NotFound("no candidate node accepted the deployment"))), run;
    }

    /** `deploy_vm_light` and `deploy_vm` with automatic placement: nothing is tried unless the proxy answers
        with a suitable node, and then exactly the nodes placement picks. */
    method DeployAuto(request: Request, room: NodeRequirements)
      returns (r: Result<DeploymentOutcome>, ghost listing: Result<seq<ProxyNode>>, ghost run: seq<Attempt>)
      modifies world
      ensures Run(old(world.chain), Flatten(run), world.chain)
      ensures listing.Err? ==> r == Err(listing.error) && run == []
      ensures listing.Ok? && PickNodes(listing.value, NeedsOf(request, room)).Err? ==>
                r == Err(PickNodes(listing.value, NeedsOf(request, room)).error) && run == []
      ensures listing.Ok? && PickNodes(listing.value, NeedsOf(request, room)).Ok? ==>
                FailoverSpec(crypto, twinId, request, PickNodes(listing.value, NeedsOf(request, room)).value, run, r)
    {
      run := [];
      var nodes := world.ListNodes();
      listing := nodes;
      if nodes.Err? { return Err(nodes.error), listing, run; }
      var picked := PickNodes(nodes.value, NeedsOf(request, room));
      if picked.Err? { return Err(picked.error), listing, run; }
      r, run := DeployWithFailover(picked.value, request);
    }

    /** `cancel_deployment_outcome`: machine first, then network, stopping at the first failed cancel. */
    method CancelDeploymentOutcome(o: DeploymentOutcome) returns (r: Result<()>, ghost tr: seq<Event>)
      modifies world
      ensures Run(old(world.chain), tr, world.chain)
      ensures CancelOutcomeSpec(o, tr, r)
    {
      tr := [];
      assert Run(world.chain, [], world.chain);
      hide Run, CancelOutcomeSpec;
      if o.vmContractId != 0 {
        var dropped := world.ContractCall(o.nodeTwinId, "zos.deployment.delete", o.vmContractId);
        RunPush(old(world.chain), tr, world.chain, Dropped(o.nodeTwinId, o.vmContractId, dropped));
        ghost var chain := world.chain;
        var cancelled, e := world.CancelContract(o.vmContractId);
        RunPush(old(world.chain), tr + [Dropped(o.nodeTwinId, o.vmContractId, dropped)], chain, e);
        tr := tr + [Dropped(o.nodeTwinId, o.vmContractId, dropped)] + [e];
        if cancelled.Err? {
          r := Err(cancelled.error.Within("cancel contract " + Decimal(o.vmContractId)));
          FirstCancelFailed(o, tr, r);
          return;
        }
      }
      ghost var first := tr;
      if o.networkContractId != 0 {
        var dropped := world.ContractCall(o.nodeTwinId, "zos.deployment.delete", o.networkContractId);
        RunPush(old(world.chain), tr, world.chain, Dropped(o.nodeTwinId, o.networkContractId, dropped));
        ghost var chain := world.chain;
        var cancelled, e := world.CancelContract(o.networkContractId);
        RunPush(old(world.chain), tr + [Dropped(o.nodeTwinId, o.networkContractId, dropped)], chain, e);
        tr := tr + [Dropped(o.nodeTwinId, o.networkContractId, dropped)] + [e];
        if cancelled.Err? {
          r := Err(cancelled.error.Within("cancel contract " + Decimal(o.networkContractId)));
          CancelledBoth(o, first, tr, r);
          return;
        }
      }
      r := Ok(());
      CancelledBoth(o, first, tr, r);
    }
  }

  lemma FirstCancelFailed(o: DeploymentOutcome, tr: seq<Event>, r: Result<()>)
    requires o.vmContractId != 0 && TornDown(o.nodeTwinId, o.vmContractId, tr) && !tr[1].ok && r.Err?
    ensures CancelOutcomeSpec(o, tr, r)
  {
    assert tr[1] in tr;
  }

  lemma CancelledBoth(o: DeploymentOutcome, first: seq<Event>, tr: seq<Event>, r: Result<()>)
    requires if o.vmContractId == 0 then first == []
             else TornDown(o.nodeTwinId, o.vmContractId, first) && first[1].ok
    requires first <= tr
    requires if o.networkContractId == 0 then tr == first && r.Ok?
             else TornDown(o.nodeTwinId, o.networkContractId, tr[|first|..]) && (r.Ok? <==> tr[|first| + 1].ok)
    ensures CancelOutcomeSpec(o, tr, r)
  {
    var second := tr[|first|..];
    assert tr == first + second;
    assert forall e :: e in tr <==> e in first || e in second;
    assert second != [] ==> second[1] in tr;
  }

  lemma LightNetworkBuilt(request: Request, signer: nat, suffix: nat, ports: seq<Event>, key: seq<Byte>)
    requires request.LightRequest? && request.CreatesNetwork() && Given(request.lightNetwork.value.myceliumKey, key)
    ensures var name := request.NetworkName(suffix);
            NetworkBuilt(request, signer, suffix, ports,
                         NewDeployment(signer, DeploymentMetadata(name, "network-light", "Network"),
                                       [BuildNetworkLight(name, request.Subnet(suffix), key)]))
  {
    hide DeploymentMetadata, BuildNetworkLight;
    var name := request.NetworkName(suffix);
    var metadata := DeploymentMetadata(name, "network-light", "Network");
    var network := BuildNetworkLight(name, request.Subnet(suffix), key);
    assert BuiltAs(NewDeployment(signer, metadata, [network]), signer, metadata, [network]);
  }

  lemma FullNetworkBuilt(request: Request, signer: nat, suffix: nat, ports: seq<Event>, key: string, port: nat)
    requires request.FullRequest? && request.CreatesNetwork()
    requires var spec := request.network.value;
             Given(spec.wireguardKey, key) && PortChosen(spec.wireguardPort, ports, port)
    ensures var name, spec := request.NetworkName(suffix), request.network.value;
            var ipRange := spec.ipRange.GetOr(DerivedRange(suffix, ".0.0/16"));
            var network := BuildNetwork(name, ipRange, request.Subnet(suffix), key, port, spec.myceliumKey);
            NetworkBuilt(request, signer, suffix, ports,
                         NewDeployment(signer, DeploymentMetadata(name, "network", "Network"), [network]))
  {
    hide DeploymentMetadata, BuildNetwork, PortChosen;
    var name, spec := request.NetworkName(suffix), request.network.value;
    var metadata := DeploymentMetadata(name, "network", "Network");
    var network := BuildNetwork(name, spec.ipRange.GetOr(DerivedRange(suffix, ".0.0/16")), request.Subnet(suffix), key,
                                port, spec.myceliumKey);
    assert BuiltAs(NewDeployment(signer, metadata, [network]), signer, metadata, [network]);
  }

  /** Signing leaves a deployment as built. */
  lemma NetworkBuiltUnlessSigned(request: Request, signer: nat, suffix: nat, ports: seq<Event>, d: DeployDeployment,
                                 e: DeployDeployment)
    requires request.CreatesNetwork() && NetworkBuilt(request, signer, suffix, ports, d)
    requires e == d.(signatures := e.signatures)
    ensures NetworkBuilt(request, signer, suffix, ports, e)
  {
    hide DeploymentMetadata, PortChosen, BuildNetwork, BuildNetworkLight;
    var name, subnet := request.NetworkName(suffix), request.Subnet(suffix);
    match request
    case LightRequest(Some(spec), _, _, _) =>
      var metadata := DeploymentMetadata(name, "network-light", "Network");
      var key :| Given(spec.myceliumKey, key) && BuiltAs(d, signer, metadata, [BuildNetworkLight(name, subnet, key)]);
      assert BuiltAs(e, signer, metadata, [BuildNetworkLight(name, subnet, key)]);
    case FullRequest(Some(spec), _, _, _) =>
      var metadata := DeploymentMetadata(name, "network", "Network");
      var ipRange := spec.ipRange.GetOr(DerivedRange(suffix, ".0.0/16"));
      var key, port :| && Given(spec.wireguardKey, key) && PortChosen(spec.wireguardPort, ports, port)
                       && BuiltAs(d, signer, metadata,
                                  [BuildNetwork(name, ipRange, subnet, key, port, spec.myceliumKey)]);
      assert BuiltAs(e, signer, metadata, [BuildNetwork(name, ipRange, subnet, key, port, spec.myceliumKey)]);
  }

  lemma MachineBuiltUnlessSigned(request: Request, signer: nat, network: NetworkInfo, suffix: nat, d: DeployDeployment,
                                 e: DeployDeployment)
    requires MachineBuilt(request, signer, network, suffix, d) && e == d.(signatures := e.signatures)
    ensures MachineBuilt(request, signer, network, suffix, e)
  {
    hide DeploymentMetadata, VmLightWorkloads, VmWorkloads;
    var name := request.MachineName(suffix);
    if request.LightRequest? {
      var spec, metadata := request.lightVm, DeploymentMetadata(name, "vm-light", name);
      var seed :| && Given(spec.myceliumSeed, seed)
                  && BuiltAs(d, signer, metadata, VmLightWorkloads(name, network.name, network.vmIp, spec, seed));
      assert BuiltAs(e, signer, metadata, VmLightWorkloads(name, network.name, network.vmIp, spec, seed));
    }
  }

  /** What the builders make can always be hashed, so signing never stops an attempt. */
  lemma NetworkHashes(c: Crypto, request: Request, signer: nat, suffix: nat, ports: seq<Event>, d: DeployDeployment)
    requires request.CreatesNetwork() && NetworkBuilt(request, signer, suffix, ports, d)
    ensures HashHex(c, d).Ok?
  {
    hide HashHex, DeploymentMetadata, PortChosen;
    assert |d.workloads| == 1 && Hashable(d.workloads[0]);
    DeploymentHashesIff(c, d);
  }

  lemma MachineHashes(c: Crypto, request: Request, signer: nat, network: NetworkInfo, suffix: nat, d: DeployDeployment)
    requires MachineBuilt(request, signer, network, suffix, d)
    ensures HashHex(c, d).Ok?
  {
    hide HashHex, DeploymentMetadata;
    DeploymentHashesIff(c, d);
  }

  lemma ClockFails(c: Crypto, signer: nat, request: Request, a: Attempt)
    requires a.ports == [] && a.network == [] && a.vm == [] && a.readback == []
    requires a.info.Err? && a.result == Err(a.info.error)
    ensures BodySpec(c, signer, request, a) && BodyEvents(a) == [] && AttemptIds(a) == []
  {
  }

  lemma NetworkFails(c: Crypto, signer: nat, request: Request, a: Attempt)
    requires NetworkSpec(c, signer, request, a.node, a.twin, a.suffix, a.ports, a.network, a.info)
    requires a.info.Err? && a.vm == [] && a.readback == [] && a.result == Err(a.info.error)
    ensures BodySpec(c, signer, request, a)
    ensures BodyEvents(a) == a.ports + StageEvents(a.network) && AttemptIds(a) == StageIds(a.network)
  {
  }

  lemma HalvesMakeBody(c: Crypto, signer: nat, request: Request, a: Attempt, start: Chain, between: Chain, end: Chain)
    requires NetworkSpec(c, signer, request, a.node, a.twin, a.suffix, a.ports, a.network, a.info) && a.info.Ok?
    requires MachineSpec(c, signer, request, a.node, a.twin, a.info.value, a.suffix, a.vm, a.readback, a.result)
    requires Run(start, a.ports + StageEvents(a.network), between)
    requires Run(between, StageEvents(a.vm) + a.readback, end)
    ensures BodySpec(c, signer, request, a)
    ensures Run(start, BodyEvents(a), end)
  {
    RunAppend(start, a.ports + StageEvents(a.network), between, StageEvents(a.vm) + a.readback, end);
  }

  lemma RollbackMakesAttempt(c: Crypto, signer: nat, request: Request, a: Attempt, tr: seq<Event>)
    requires BodySpec(c, signer, request, a)
    requires if a.result.Ok? then tr == [] else RollbackSpec(a.twin, AttemptIds(a), tr)
    ensures AttemptSpec(c, signer, request, a.(rollback := tr))
    ensures AttemptEvents(a.(rollback := tr)) == BodyEvents(a) + tr
    ensures tr == [] ==> BodyEvents(a) + tr == BodyEvents(a)
  {
    hide NetworkSpec, MachineSpec, RollbackSpec, StageEvents;
    var b := a.(rollback := tr);
    assert BodyEvents(b) == BodyEvents(a);
    assert BodySpec(c, signer, request, b);
  }

  lemma RunGrows(c: Crypto, signer: nat, request: Request, candidates: seq<ProxyNode>, run: seq<Attempt>, a: Attempt)
    requires RunSpec(c, signer, request, candidates, run) && |run| < |candidates|
    requires run == [] || run[|run| - 1].result.Err?
    requires AttemptSpec(c, signer, request, a)
    requires a.node == candidates[|run|].nodeId && a.twin == candidates[|run|].twinId
    ensures RunSpec(c, signer, request, candidates, run + [a])
  {
    hide AttemptSpec;
    var longer := run + [a];
    forall i | 0 <= i < |longer| ensures AttemptSpec(c, signer, request, longer[i]) {
      if i < |run| { assert AttemptSpec(c, signer, request, run[i]); }
    }
  }

  lemma RollbackGrows(twin: nat, ids: seq<nat>, i: nat, tr: seq<Event>, dropped: Event, cancelled: Event)
    requires i < |ids| && ids[i] != 0
    requires forall rest :: RollbackSpec(twin, ids[..i + 1], rest) ==> RollbackSpec(twin, ids, tr + rest)
    requires dropped.Dropped? && dropped.twin == twin && dropped.id == ids[i]
    requires cancelled.Cancelled? && cancelled.id == ids[i]
    ensures forall rest :: RollbackSpec(twin, ids[..i], rest) ==>
              RollbackSpec(twin, ids, tr + [dropped] + [cancelled] + rest)
  {
    forall rest | RollbackSpec(twin, ids[..i], rest)
      ensures RollbackSpec(twin, ids, tr + [dropped] + [cancelled] + rest)
    {
      var longer := [dropped, cancelled] + rest;
      assert ids[..i + 1][..i] == ids[..i];
      assert longer[2..] == rest;
      assert RollbackSpec(twin, ids[..i + 1], longer);
      assert tr + longer == tr + [dropped] + [cancelled] + rest;
    }
  }

  datatype Settlement = Settlement(id: nat, workloads: seq<DeployWorkload>)

  /** Only anchoring touches the chain. */
  lemma LegIsQuiet(node: nat, twin: nat, s: Stage, n: nat)
    requires 0 < n < |s| && Follows(node, twin, s, n)
    ensures forall e :: e in s[n].Events() ==> !TouchesChain(e)
  {
    var tr := s[n].trace;
    forall e | e in tr ensures !TouchesChain(e) {
      var i :| 0 <= i < |tr| && tr[i] == e;
      match s[n] {
        case Wait(_, found) => PhaseEvents(Looking(node, s[0].hash), tr, found.Ok?, i);
        case Confirm(_, confirmed) =>
          PhaseEvents(Sending(twin, s[0].deployment.(contractId := s[1].found.value)), tr, confirmed.Ok?, i);
        case Settle(_, settled) => PhaseEvents(Settling(twin, s[1].found.value), tr, settled.Ok?, i);
      }
    }
  }

  datatype Visibility = Visible | StillMissing | Failed(error: GridError)

  predicate BadLookup(e: Event) {
    e.Looked? && (e.reply.Unreachable? || e.reply.BadBody?)
  }

  ghost predicate PollSpec(twin: nat, d: DeployDeployment, tr: seq<Event>, v: Visibility) {
    && PhaseSpec(Sending(twin, d), tr, v.Visible?)
    && (forall i :: 0 <= i < |tr| - 1 ==> !FatalGet(tr[i]))
    && (v.Failed? <==> FatalGet(tr[|tr| - 1]))
    && (v.Failed? ==> v.error == tr[|tr| - 1].got.error)
    && Count(tr, IsSent) == 0 && Count(tr, IsGot) <= 16
  }

  /** The trace of polling that has shown nothing yet. */
  ghost predicate Polling(twin: nat, d: DeployDeployment, tr: seq<Event>, gets: nat) {
    && Undecided(Sending(twin, d), tr) && (forall i :: 0 <= i < |tr| ==> !FatalGet(tr[i]))
    && Count(tr, IsSent) == 0 && Count(tr, IsGot) == gets
  }

  lemma PollingBegins(twin: nat, d: DeployDeployment)
    ensures Polling(twin, d, [], 0)
  {
  }

  lemma PollPush(twin: nat, d: DeployDeployment, tr: seq<Event>, e: Event, gets: nat)
    requires Polling(twin, d, tr, gets) && Sending(twin, d).Fits(e) && !e.Sent? && !Confirms(e) && !FatalGet(e)
    ensures Polling(twin, d, tr + [e], gets + if e.Got? then 1 else 0)
  {
    hide Confirms, FatalGet;
    UndecidedPush(Sending(twin, d), tr, e);
    CountPush(tr, e, IsSent);
    CountPush(tr, e, IsGot);
    hide Undecided, Count;
  }

  lemma PollEnds(twin: nat, d: DeployDeployment, tr: seq<Event>, e: Event, gets: nat, v: Visibility)
    requires Polling(twin, d, tr, gets) && gets <= 15 && e.Got? && Sending(twin, d).Fits(e)
    requires v.Visible? <==> Confirms(e)
    requires v.Failed? <==> FatalGet(e)
    requires v.Failed? ==> v.error == e.got.error
    ensures PollSpec(twin, d, tr + [e], v)
  {
    hide Confirms, FatalGet;
    UndecidedPush(Sending(twin, d), tr, e);
    CountPush(tr, e, IsSent);
    CountPush(tr, e, IsGot);
    hide Undecided, Count;
  }

  /** The trace of some unsuccessful rounds of sending and polling. */
  ghost predicate Rounds(twin: nat, d: DeployDeployment, tr: seq<Event>, rounds: nat) {
    && Undecided(Sending(twin, d), tr)
    && (forall i :: 0 <= i < |tr| ==> !FatalGet(tr[i]))
    && (if rounds == 0 then tr == [] else tr != [] && tr[0].Sent?)
    && Count(tr, IsSent) == rounds && Count(tr, IsGot) <= 16 * rounds
  }

  lemma SendConfirms(twin: nat, d: DeployDeployment, tr: seq<Event>, e: Event, rounds: nat)
    requires Rounds(twin, d, tr, rounds) && rounds < 10
    requires e.Sent? && Sending(twin, d).Fits(e) && Confirms(e)
    ensures ConfirmSpec(twin, d, tr + [e], Ok(()))
  {
    hide Contains;
    UndecidedPush(Sending(twin, d), tr, e);
    CountPush(tr, e, IsSent);
    CountPush(tr, e, IsGot);
  }

  lemma RoundEnds(twin: nat, d: DeployDeployment, tr: seq<Event>, e: Event, rounds: nat, polls: seq<Event>,
                  v: Visibility)
    requires Rounds(twin, d, tr, rounds) && rounds < 10
    requires e.Sent? && Sending(twin, d).Fits(e) && !Confirms(e)
    requires PollSpec(twin, d, polls, v)
    ensures v.StillMissing? ==> Rounds(twin, d, tr + [e, Slept(2_000)] + polls, rounds + 1)
    ensures v.Visible? ==> ConfirmSpec(twin, d, tr + [e, Slept(2_000)] + polls, Ok(()))
    ensures v.Failed? ==> ConfirmSpec(twin, d, tr + [e, Slept(2_000)] + polls, Err(v.error))
  {
    hide Contains, Retryable;
    var p := Sending(twin, d);
    var head := tr + [e] + [Slept(2_000)];
    UndecidedPush(p, tr, e);
    UndecidedPush(p, tr + [e], Slept(2_000));
    CountPush(tr, e, IsSent);
    CountPush(tr, e, IsGot);
    CountPush(tr + [e], Slept(2_000), IsSent);
    CountPush(tr + [e], Slept(2_000), IsGot);
    CountAppend(head, polls, IsSent);
    CountAppend(head, polls, IsGot);
    var n := |polls| - 1;
    UndecidedAppend(p, head, polls[..n]);
    UndecidedPush(p, head + polls[..n], polls[n]);
    assert head + polls == (head + polls[..n]) + [polls[n]];
    assert head == tr + [e, Slept(2_000)];
  }

  /** The trace of polling that has neither settled nor broken yet. */
  ghost predicate Unsettled(twin: nat, id: nat, tr: seq<Event>, polls: nat, gets: nat) {
    && Undecided(Settling(twin, id), tr)
    && (forall i :: 0 <= i < |tr| ==> !Breaks(tr[i]))
    && Count(tr, IsPolled) == polls && Count(tr, IsGot) == gets
  }

  lemma UnsettledPush(twin: nat, id: nat, tr: seq<Event>, e: Event, polls: nat, gets: nat)
    requires Unsettled(twin, id, tr, polls, gets) && Settling(twin, id).Fits(e) && !Settles(e) && !Breaks(e)
    ensures Unsettled(twin, id, tr + [e], polls + (if e.Polled? then 1 else 0), gets + (if e.Got? then 1 else 0))
  {
    hide Settles, Breaks;
    UndecidedPush(Settling(twin, id), tr, e);
    CountPush(tr, e, IsPolled);
    CountPush(tr, e, IsGot);
  }

  lemma UnsettledAtFirst(twin: nat, id: nat)
    ensures Unsettled(twin, id, [], 0, 0)
  {
  }

  lemma SleepIsQuiet()
    ensures forall ms :: !Settles(Slept(ms)) && !Breaks(Slept(ms))
  {
  }

  lemma SettlesNow(twin: nat, id: nat, tr: seq<Event>, e: Event, polls: nat, gets: nat)
    requires Unsettled(twin, id, tr, polls, gets) && Settling(twin, id).Fits(e) && Settles(e)
    requires polls <= (if e.Polled? then 90 else 91) && gets <= 90
    ensures SettleSpec(twin, id, tr + [e], ExtractWorkloads(e.got.value))
  {
    hide Breaks;
    UndecidedPush(Settling(twin, id), tr, e);
    CountPush(tr, e, IsPolled);
    CountPush(tr, e, IsGot);
  }

  lemma BreaksNow(twin: nat, id: nat, tr: seq<Event>, e: Event, polls: nat, gets: nat)
    requires Unsettled(twin, id, tr, polls, gets) && Settling(twin, id).Fits(e) && Breaks(e)
    requires polls <= (if e.Polled? then 90 else 91) && gets <= 90
    ensures SettleSpec(twin, id, tr + [e], Err(BreakError(e)))
  {
    hide Settled, Retryable, ExtractWorkloads;
    UndecidedPush(Settling(twin, id), tr, e);
    CountPush(tr, e, IsPolled);
    CountPush(tr, e, IsGot);
  }

  lemma TimesOut(twin: nat, id: nat, tr: seq<Event>, polls: nat, gets: nat, error: GridError)
    requires Unsettled(twin, id, tr, polls, gets) && polls <= 91 && gets <= 91
    requires tr != [] && !tr[|tr| - 1].Slept? && error.Backend?
    ensures SettleSpec(twin, id, tr, Err(error))
  {
    hide Settles, Breaks;
  }

  /** A read that ends the wait: it broke, or it came after the deadline. */
  lemma StopsUnsettled(twin: nat, id: nat, tr: seq<Event>, e: Event, polls: nat, gets: nat, error: GridError)
    requires Unsettled(twin, id, tr, polls, gets) && Settling(twin, id).Fits(e) && !Settles(e)
    requires e.Got? && polls <= 91 && gets <= 90
    requires if Breaks(e) then error == BreakError(e) else error.Backend?
    ensures SettleSpec(twin, id, tr + [e], Err(error))
  {
    hide Settles, Breaks, BreakError;
    if Breaks(e) {
      BreaksNow(twin, id, tr, e, polls, gets);
    } else {
      UnsettledPush(twin, id, tr, e, polls, gets);
      TimesOut(twin, id, tr + [e], polls, gets + 1, error);
    }
  }
}
