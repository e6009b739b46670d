/** What the settle rule accepts, and what it never accepts. */
module Settlements {
  import opened GridErrors
  import opened Text
  import opened HexCodec
  import opened Deployments
  import opened Addresses
  import opened Builders
  import opened DeployTrace
  import opened Accounting
  import opened DeployOrder

  predicate AllOk(ws: seq<DeployWorkload>) {
    forall w :: w in ws ==> w.result.state == "ok"
  }

  /** A deployment whose workloads are all ok settles exactly when they share one name: with a second
      workload - a volume, a public address - it does not. */
  lemma AllOkSettlesIff(ws: seq<DeployWorkload>)
    requires ws != [] && AllOk(ws)
    ensures Settled(ws) <==> forall w :: w in ws ==> w.name == ws[0].name
  {
    var names := OkNames(ws);
    assert ws[0] in ws && ws[0].name in names;
    if forall w :: w in ws ==> w.name == ws[0].name {
      assert names == {ws[0].name};
    }
    if |names| == 1 {
      forall w | w in ws ensures w.name == ws[0].name {
        assert w.name in names;
        SingletonMembers(names, w.name, ws[0].name);
      }
    }
  }

  lemma SingletonMembers(names: set<string>, x: string, y: string)
    requires |names| == 1 && x in names && y in names
    ensures x == y
  {
    assert |names - {x}| == 0;
  }

  /** The states that settle a workload by itself: that it runs, and those from which it does not go on. */
  lemma SettlesAloneIff(w: DeployWorkload)
    ensures Settled([w]) <==> w.result.state in {"ok", "error", "deleted", "paused", "unchanged"}
  {
    if w.result.state == "ok" {
      assert OkNames([w]) == {w.name};
    } else {
      assert OkNames([w]) == {};
      assert Settled([w]) ==> exists v :: v in [w] && Terminal(v.result.state);
    }
    assert w in [w];
  }

  /** Any one of the last four settles the whole deployment, whatever the others are in. */
  lemma OneFinalStateSettles(ws: seq<DeployWorkload>, w: DeployWorkload)
    requires w in ws && w.result.state in {"error", "deleted", "paused", "unchanged"}
    ensures Settled(ws)
  {
  }

  /** A workload that is ok, like only those of its name. */
  predicate OnlyNameOk(ws: seq<DeployWorkload>, w: DeployWorkload) {
    w in ws && w.result.state == "ok" && forall v :: v in ws && v.result.state == "ok" ==> v.name == w.name
  }

  /** The rule for any deployment: some workload is in a final state, or some are ok and all of these share a
      name - the states of the others do not matter. */
  lemma SettlesIff(ws: seq<DeployWorkload>)
    ensures Settled(ws) <==>
              || (exists w :: w in ws && w.result.state in {"error", "deleted", "paused", "unchanged"})
              || (exists w :: OnlyNameOk(ws, w))
  {
    FinalIff(ws);
    OneNameIff(ws);
    hide OkNames, Terminal, OnlyNameOk;
  }

  lemma FinalIff(ws: seq<DeployWorkload>)
    ensures (exists w :: w in ws && Terminal(w.result.state))
       <==> exists w :: w in ws && w.result.state in {"error", "deleted", "paused", "unchanged"}
  {
    forall w: DeployWorkload
      ensures Terminal(w.result.state) <==> w.result.state in {"error", "deleted", "paused", "unchanged"}
    {
    }
    hide Terminal;
  }

  lemma OneNameIff(ws: seq<DeployWorkload>)
    ensures (ws != [] && |OkNames(ws)| == 1) <==> exists w :: OnlyNameOk(ws, w)
  {
    if w :| OnlyNameOk(ws, w) { OnlyNameIsOne(ws, w); }
    if |OkNames(ws)| == 1 {
      var name :| name in OkNames(ws);
      var w :| w in ws && w.result.state == "ok" && w.name == name;
      OneIsOnlyName(ws, w);
    }
  }

  lemma OnlyNameIsOne(ws: seq<DeployWorkload>, w: DeployWorkload)
    requires OnlyNameOk(ws, w)
    ensures OkNames(ws) == {w.name}
  {
  }

  lemma OneIsOnlyName(ws: seq<DeployWorkload>, w: DeployWorkload)
    requires |OkNames(ws)| == 1 && w in ws && w.result.state == "ok"
    ensures OnlyNameOk(ws, w)
  {
    assert w.name in OkNames(ws);
    forall v | v in ws && v.result.state == "ok" ensures v.name == w.name {
      assert v.name in OkNames(ws);
      SingletonMembers(OkNames(ws), v.name, w.name);
    }
  }

  /** A reply that lists two ok names and no terminal state. */
  predicate ShowsTwoOk(e: Event) {
    (e.Got? || e.Polled?) && e.got.Ok? && ExtractWorkloads(e.got.value).Ok? ==>
      var ws := ExtractWorkloads(e.got.value).value;
      && (forall w :: w in ws ==> !Terminal(w.result.state))
      && exists v, w :: v in ws && w in ws && v.result.state == "ok" && w.result.state == "ok" && v.name != w.name
  }

  /** So waiting on a node that only ever shows several ok workloads fails, however long it answers. */
  lemma SeveralOkWorkloadsNeverSettle(twin: nat, id: nat, tr: seq<Event>, r: Result<seq<DeployWorkload>>)
    requires SettleSpec(twin, id, tr, r) && forall e :: e in tr ==> ShowsTwoOk(e)
    ensures r.Err?
  {
    var last := tr[|tr| - 1];
    assert last in tr;
    if r.Ok? {
      assert Settling(twin, id).Decides(last);
      var ws := ExtractWorkloads(last.got.value).value;
      var v, w :| v in ws && w in ws && v.result.state == "ok" && w.result.state == "ok" && v.name != w.name;
      assert v.name in OkNames(ws) && w.name in OkNames(ws);
      SingletonMembers(OkNames(ws), v.name, w.name);
    }
  }

  // ---- What the client builds ----

  function NamesOf(ws: seq<DeployWorkload>): set<string> {
    set w | w in ws :: w.name
  }

  /** The node's whole deployment is up: it reports what was built, in any order, all of it ok. */
  predicate ReportsUp(built: seq<DeployWorkload>, ws: seq<DeployWorkload>) {
    AllOk(ws) && NamesOf(ws) == NamesOf(built)
  }

  lemma UpSettlesIff(built: seq<DeployWorkload>, ws: seq<DeployWorkload>, name: string)
    requires ReportsUp(built, ws) && name in NamesOf(built)
    ensures Settled(ws) <==> forall w :: w in built ==> w.name == name
  {
    var v :| v in ws && v.name == name;
    AllOkSettlesIff(ws);
    if forall w :: w in ws ==> w.name == ws[0].name {
      forall w | w in built ensures w.name == name { assert w.name in NamesOf(ws); }
    }
    if forall w :: w in built ==> w.name == name {
      forall w | w in ws ensures w.name == ws[0].name {
        assert w.name in NamesOf(built) && ws[0] in ws && ws[0].name in NamesOf(built);
      }
    }
  }

  lemma VolumeNames(volumes: seq<VolumeMount>, name: string)
    ensures (forall w :: w in VolumeWorkloads(volumes) ==> w.name == name)
            <==> forall v :: v in volumes ==> v.name == name
  {
    var ws := VolumeWorkloads(volumes);
    assert forall i :: 0 <= i < |volumes| ==> ws[i] in ws && ws[i].name == volumes[i].name;
  }

  /** A full machine that is up settles exactly when its request wants no public address and names every
      volume like the machine; any other request waits in vain. */
  lemma UpMachineSettlesIff(name: string, network: string, ip: string, spec: VmSpec, ws: seq<DeployWorkload>)
    requires ReportsUp(VmWorkloads(name, network, ip, spec), ws)
    ensures Settled(ws) <==> !spec.publicIpv4 && !spec.publicIpv6 && forall v :: v in spec.volumes ==> v.name == name
  {
    var built, machine := VmWorkloads(name, network, ip, spec), VmMachine(name, network, ip, spec);
    hide VmMachine, VolumeWorkloads, Settled;
    assert machine.name == name by { MachineIsNamed(name, network, ip, spec); }
    assert built[|built| - 1] == machine && machine in built;
    UpSettlesIff(built, ws, name);
    VolumeNames(spec.volumes, name);
    if spec.publicIpv4 || spec.publicIpv6 {
      assert built[0].name == name + "ip" && |name + "ip"| != |name|;
      assert built[0] in built;
    }
    assert forall w :: w in VolumeWorkloads(spec.volumes) ==> w in built;
  }

  lemma MachineIsNamed(name: string, network: string, ip: string, spec: VmSpec)
    ensures VmMachine(name, network, ip, spec).name == name
  {
  }

  /** The same for a light machine, which has no public address. */
  lemma UpLightMachineSettlesIff(name: string, network: string, ip: string, spec: VmLightSpec, seed: seq<Byte>,
                                 ws: seq<DeployWorkload>)
    requires ReportsUp(VmLightWorkloads(name, network, ip, spec, seed), ws)
    ensures Settled(ws) <==> forall v :: v in spec.volumes ==> v.name == name
  {
    var built := VmLightWorkloads(name, network, ip, spec, seed);
    var machine := VmLightMachine(name, network, ip, spec, seed);
    assert machine.name == name && built[|built| - 1] == machine && machine in built;
    hide VmLightMachine, VolumeWorkloads, Settled;
    UpSettlesIff(built, ws, name);
    VolumeNames(spec.volumes, name);
    assert forall w :: w in VolumeWorkloads(spec.volumes) ==> w in built;
  }

  /** A reply that, if readable, shows the deployment up. */
  predicate ShowsUp(built: seq<DeployWorkload>, e: Event) {
    (e.Got? || e.Polled?) && e.got.Ok? && ExtractWorkloads(e.got.value).Ok? ==>
      ReportsUp(built, ExtractWorkloads(e.got.value).value)
  }

  /** So a full machine with an address or a volume of another name fails its wait although the node only
      ever shows it up. */
  lemma UpMachineWaitsInVain(name: string, network: string, ip: string, spec: VmSpec, twin: nat, id: nat,
                             tr: seq<Event>, r: Result<seq<DeployWorkload>>)
    requires SettleSpec(twin, id, tr, r) && forall e :: e in tr ==> ShowsUp(VmWorkloads(name, network, ip, spec), e)
    requires spec.publicIpv4 || spec.publicIpv6 || exists v :: v in spec.volumes && v.name != name
    ensures r.Err?
  {
    hide VmWorkloads, Settled, ExtractWorkloads, ReportsUp;
    var last := tr[|tr| - 1];
    assert last in tr;
    if r.Ok? {
      assert Settling(twin, id).Decides(last);
      UpMachineSettlesIff(name, network, ip, spec, ExtractWorkloads(last.got.value).value);
    }
  }

  lemma UpLightMachineWaitsInVain(name: string, network: string, ip: string, spec: VmLightSpec, seed: seq<Byte>,
                                  twin: nat, id: nat, tr: seq<Event>, r: Result<seq<DeployWorkload>>)
    requires SettleSpec(twin, id, tr, r)
    requires forall e :: e in tr ==> ShowsUp(VmLightWorkloads(name, network, ip, spec, seed), e)
    requires exists v :: v in spec.volumes && v.name != name
    ensures r.Err?
  {
    hide VmLightWorkloads, Settled, ExtractWorkloads, ReportsUp;
    var last := tr[|tr| - 1];
    assert last in tr;
    if r.Ok? {
      assert Settling(twin, id).Decides(last);
      UpLightMachineSettlesIff(name, network, ip, spec, seed, ExtractWorkloads(last.got.value).value);
    }
  }

  // ---- A network in error ----

  /** Whatever the network's workloads settled to, the machine's contract is submitted next. */
  lemma SettledNetworkGetsItsMachine(k: Crypto, signer: nat, request: Request, a: Attempt)
    requires AttemptSpec(k, signer, request, a) && request.CreatesNetwork() && Complete(a.network)
    ensures a.vm != [] && a.vm[0].Anchor? && a.vm[0].create.Created?
    ensures a.vm[0].create in AttemptEvents(a) && a.vm[0].create.node == a.node
  {
    hide StageSpec, RollbackSpec, ReadsBack, AnchorSpec;
    hide NetworkBuilt, MachineBuilt, OutcomeOf, PlanFails, VmIpFromSubnet;
    assert a.vm != [] && StageSpec(k, signer, a.node, a.twin, a.vm);
    hide AttemptSpec, StageEvents;
    StageAnchors(k, signer, a.node, a.twin, a.vm);
    LegInStage(a.vm, 0, a.vm[0].create);
    AnchorsCreate(k, signer, a.node, a.vm[0]);
  }

  lemma AnchorsCreate(k: Crypto, signer: nat, node: nat, l: Leg)
    requires AnchorSpec(k, signer, node, l)
    ensures l.create.Created? && l.create.node == node
  {
  }

  /** A stage that settles on the given workloads at the first poll. */
  lemma SettlingStage(k: Crypto, signer: nat, node: nat, twin: nat, d: DeployDeployment, hash: string, id: nat,
                      ws: seq<DeployWorkload>) returns (s: Stage)
    requires SignedOver(k, signer, d, hash)
    requires Settled(ws)
    ensures StageSpec(k, signer, node, twin, s) && Complete(s)
    ensures s[0].deployment == d && s[1].found == Ok(id) && s[3].settled == Ok(ws)
    ensures |s| == 4 && s[0] == Anchor(d, hash, Created(node, hash, d.metadata, PublicIpCount(d.workloads), id, true))
    ensures s[1] == Wait([Looked(node, hash, Listed([id]))], Ok(id))
    ensures s[2].Confirm? && |s[2].trace| == 1 && s[2].trace[0].Sent?
    ensures s[3].Settle? && |s[3].trace| == 1 && s[3].trace[0].Polled?
  {
    hide SignedOver, Settled, PublicIpCount;
    var create := Created(node, hash, d.metadata, PublicIpCount(d.workloads), id, true);
    var look := Looked(node, hash, Listed([id]));
    var sent := Sent(twin, d.(contractId := id), Err(Backend("exists")));
    var items := seq(|ws|, i requires 0 <= i < |ws| => Item(ws[i]));
    var poll := Polled(twin, id, Ok(ListReply(items)));
    assert ExtractWorkloads(ListReply(items)) == Ok(ws) by { ItemsExtract(ws); }
    PrefixIsContained("exists", "");
    assert "exists" + "" == "exists";
    hide Contains, ExtractWorkloads;
    OneEvent(Looking(node, hash), look);
    OneEvent(Sending(twin, d.(contractId := id)), sent);
    OneEvent(Settling(twin, id), poll);
    var anchor, wait := Anchor(d, hash, create), Wait([look], Ok(id));
    var confirm, settle := Confirm([sent], Ok(())), Settle([poll], Ok(ws));
    assert AnchorSpec(k, signer, node, anchor);
    assert WaitSpec(node, hash, [look], Ok(id));
    assert ConfirmSpec(twin, d.(contractId := id), [sent], Ok(()));
    assert SettleSpec(twin, id, [poll], Ok(ws));
    hide AnchorSpec, WaitSpec, ConfirmSpec, SettleSpec;
    s := [anchor, wait, confirm, settle];
    assert LegSpec(k, signer, node, twin, s, 0) && LegSpec(k, signer, node, twin, s, 1);
    assert LegSpec(k, signer, node, twin, s, 2) && LegSpec(k, signer, node, twin, s, 3);
  }

  lemma ItemsExtract(ws: seq<DeployWorkload>)
    ensures ExtractWorkloads(ListReply(seq(|ws|, i requires 0 <= i < |ws| => Item(ws[i])))) == Ok(ws)
  {
    var items := seq(|ws|, i requires 0 <= i < |ws| => Item(ws[i]));
    assert forall i :: 0 <= i < |items| ==> items[i].Item?;
    assert ExtractWorkloads(ListReply(items)).value == ws;
  }

  /** A phase decided by its first event. */
  lemma OneEvent(p: Phase, e: Event)
    requires p.Fits(e) && p.Decides(e)
    ensures PhaseSpec(p, [e], true)
    ensures Count([e], IsLooked) <= 1 && Count([e], IsSent) == (if e.Sent? then 1 else 0)
    ensures Count([e], IsGot) == (if e.Got? then 1 else 0) && Count([e], IsPolled) <= 1
  {
    assert [e][..0] == [];
    assert Count([], IsLooked) == 0 && Count([], IsSent) == 0 && Count([], IsGot) == 0 && Count([], IsPolled) == 0;
  }

  /** A stage whose contract the chain refused. */
  lemma RefusedAnchor(k: Crypto, signer: nat, node: nat, twin: nat, d: DeployDeployment, hash: string)
    returns (s: Stage)
    requires SignedOver(k, signer, d, hash)
    ensures StageSpec(k, signer, node, twin, s) && Finished(s) && !Complete(s) && StageIds(s) == []
    ensures s != [] && s[0].Anchor? && s[0].deployment == d
  {
    hide SignedOver, PublicIpCount;
    var anchor := Anchor(d, hash, Created(node, hash, d.metadata, PublicIpCount(d.workloads), 0, false));
    s := [] + [anchor];
    StagePush(k, signer, node, twin, [], anchor);
  }

  lemma CompleteStageIds(k: Crypto, signer: nat, node: nat, twin: nat, s: Stage)
    requires StageSpec(k, signer, node, twin, s) && Complete(s)
    ensures StageIds(s) == [s[1].found.value] && Finished(s) && s[0].Anchor?
  {
    hide AnchorSpec, WaitSpec, ConfirmSpec, SettleSpec;
  }

  /** Even a network in error: for every request that plans a network there is an attempt in which it
      settles with a workload in error and the machine's contract is submitted all the same. */
  lemma NetworkInErrorGetsItsMachine(k: Crypto, signer: nat, request: Request, node: ProxyNode, suffix: nat,
                                     ports: seq<Event>, d: DeployDeployment, hash: string, id: nat, w: DeployWorkload,
                                     m: DeployDeployment, machineHash: string) returns (a: Attempt)
    requires Planned(request, node.twinId, suffix, ports) && id != 0
    requires NetworkBuilt(request, signer, suffix, ports, d) && SignedOver(k, signer, d, hash)
    requires MachineBuilt(request, signer, PlannedNetwork(request, suffix, id), suffix, m)
    requires SignedOver(k, signer, m, machineHash)
    requires w.result.state == "error"
    ensures AttemptSpec(k, signer, request, a) && Complete(a.network)
    ensures a.network[3].settled.value == [w] && a.vm != [] && a.vm[0].Anchor? && a.vm[0].deployment == m
  {
    hide SignedOver, NetworkBuilt, MachineBuilt, VmIpFromSubnet;
    hide StageSpec, StageIds, ReadsBack, OutcomeOf, RollbackSpec, Settled;
    assert Settled([w]) by { ErrorSettles([w], w); }
    hide PlanFails;
    var network := SettlingStage(k, signer, node.nodeId, node.twinId, d, hash, id, [w]);
    CompleteStageIds(k, signer, node.nodeId, node.twinId, network);
    var vm := RefusedAnchor(k, signer, node.nodeId, node.twinId, m, machineHash);
    var info := PlannedNetwork(request, suffix, id);
    var rollback := [Dropped(node.twinId, id, Err(NotFound(""))), Cancelled(id, false, false)];
    OneTornDown(node.twinId, id, rollback);
    a := Attempt(node.nodeId, node.twinId, suffix, ports, network, Ok(info), vm, [], rollback, Err(NotFound("")));
    assert NetworkSpec(k, signer, request, a.node, a.twin, suffix, ports, network, Ok(info));
    assert MachineSpec(k, signer, request, a.node, a.twin, info, suffix, vm, [], a.result);
    hide NetworkSpec, MachineSpec;
    assert BodySpec(k, signer, request, a);
    assert AttemptIds(a) == [id];
  }

  lemma ErrorSettles(ws: seq<DeployWorkload>, w: DeployWorkload)
    requires w in ws && w.result.state == "error"
    ensures Settled(ws)
  {
  }
}
