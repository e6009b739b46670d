/** What a clash of hashes on a node does: rollback cancels a contract that is not the run's own. */
module Clashes {
  import opened GridErrors
  import opened Text
  import opened HexCodec
  import opened Deployments
  import opened Addresses
  import opened Builders
  import opened DeployTrace
  import opened Placement
  import opened Accounting
  import opened DeployOrder
  import opened OwnContracts
  import opened Settlements

  /** Another live contract of the node is anchored under that hash. */
  predicate HashClash(c: Chain, node: nat, hash: string, other: nat) {
    other in Live(c) && other != 0 && c[other].node == node && c[other].hash == hash
  }

  /** The trace can happen, its lookups are truthful and its cancels succeed. */
  ghost predicate Fair(c: Chain, tr: seq<Event>, after: Chain) {
    Run(c, tr, after) && Truthful(c, tr) && FailedCancels(tr) == {}
  }

  // ---- What a clash brings about ----

  /** With a clash the guarantee is gone: when some live contract already has the node and the hash
      of the machine's deployment, there is a run with a truthful lookup and successful cancels that
      fails, cancels that other contract, and leaves its own behind. */
  lemma ClashCancelsAnotherContract(c: Chain, k: Crypto, signer: nat, request: Request, node: ProxyNode,
                                    d: DeployDeployment, suffix: nat, hash: string, other: nat, own: nat)
    returns (run: seq<Attempt>, after: Chain)
    requires !request.CreatesNetwork()
    requires MachineBuilt(request, signer, NetworkInfo(request.name, request.ip, 0), suffix, d)
    requires SignedOver(k, signer, d, hash) && HashClash(c, node.nodeId, hash, other) && own !in c && own != 0
    ensures FailoverSpec(k, signer, request, [node], run, Err(NotFound(""))) && Fair(c, Flatten(run), after)
    ensures other !in Live(after) && own in Live(after) && own !in Live(c)
  {
    hide SignedOver, MachineBuilt, Fair, Refused, FailoverSpec, Flatten, AttemptSpec, AttemptEvents, StageEvents;
    var rollback := Teardown(node.twinId, other);
    var stage: Stage;
    stage, after := ClashedStage(c, k, signer, node, d, hash, other, own, rollback);
    var a := Attempt(node.nodeId, node.twinId, suffix, [], [], Ok(NetworkInfo(request.name, request.ip, 0)), stage, [],
                     rollback, Err(NotFound("")));
    run := [a];
    RefusedAttempt(k, signer, request, a, d, other);
    SingleRun(k, signer, request, node, a);
    EventsOf(a);
    NoStageEvents();
    assert AttemptEvents(a) == StageEvents(stage) + rollback;
  }

  /** The same when the clash is with the deployment of a network to be created. */
  lemma ClashOnNetworkCancelsAnother(c: Chain, k: Crypto, signer: nat, request: Request, node: ProxyNode,
                                     suffix: nat, ports: seq<Event>, d: DeployDeployment, hash: string, other: nat,
                                     own: nat) returns (run: seq<Attempt>, after: Chain)
    requires Planned(request, node.twinId, suffix, ports) && NetworkBuilt(request, signer, suffix, ports, d)
    requires SignedOver(k, signer, d, hash) && HashClash(c, node.nodeId, hash, other) && own !in c && own != 0
    ensures FailoverSpec(k, signer, request, [node], run, Err(NotFound(""))) && Fair(c, Flatten(run), after)
    ensures other !in Live(after) && own in Live(after) && own !in Live(c)
  {
    hide SignedOver, NetworkBuilt, Fair, Refused, FailoverSpec, Flatten, AttemptSpec, AttemptEvents, StageEvents;
    hide PlanFails;
    var rollback := Teardown(node.twinId, other);
    var stage: Stage;
    stage, after := ClashedStage(c, k, signer, node, d, hash, other, own, rollback);
    var a := Attempt(node.nodeId, node.twinId, suffix, ports, stage, Err(NotFound("")), [], [], rollback,
                     Err(NotFound("")));
    run := [a];
    RefusedNetworkAttempt(k, signer, request, a, d, other);
    SingleRun(k, signer, request, node, a);
    EventsOf(a);
    NoStageEvents();
    assert AttemptEvents(a) == ports + (StageEvents(stage) + rollback);
    QuietIsFair(c, ports);
    FairAppend(c, ports, c, StageEvents(stage) + rollback, after);
  }

  /** And when it is with the machine of a network just created: then rollback cancels the other contract
      and the new network, and leaves the own machine behind. */
  lemma ClashAfterNetworkCancelsAnother(c: Chain, k: Crypto, signer: nat, request: Request, node: ProxyNode,
                                        suffix: nat, ports: seq<Event>, d: DeployDeployment, netHash: string, net: nat,
                                        m: DeployDeployment, hash: string, other: nat, own: nat)
    returns (run: seq<Attempt>, after: Chain)
    requires Planned(request, node.twinId, suffix, ports) && NetworkBuilt(request, signer, suffix, ports, d)
    requires MachineBuilt(request, signer, PlannedNetwork(request, suffix, net), suffix, m)
    requires SignedOver(k, signer, d, netHash) && SignedOver(k, signer, m, hash)
    requires HashClash(c, node.nodeId, hash, other)
    requires net !in c && net != 0 && own !in c && own != 0 && own != net
    ensures FailoverSpec(k, signer, request, [node], run, Err(NotFound(""))) && Fair(c, Flatten(run), after)
    ensures other !in Live(after) && own in Live(after) && own !in Live(c)
  {
    hide SignedOver, NetworkBuilt, MachineBuilt, Fair, Refused, FailoverSpec, Flatten, AttemptSpec, AttemptEvents;
    hide VmIpFromSubnet, StageEvents, StageSpec;
    var info := PlannedNetwork(request, suffix, net);
    hide PlanFails;
    var network, mid := CreatedStage(c, k, signer, node, d, netHash, net);
    var first, second := Teardown(node.twinId, other), Teardown(node.twinId, net);
    var vm, clashed := ClashedStage(mid, k, signer, node, m, hash, other, own, first);
    var a := Attempt(node.nodeId, node.twinId, suffix, ports, network, Ok(info), vm, [], first + second,
                     Err(NotFound("")));
    run := [a];
    RefusedMachineAttempt(k, signer, request, a, d, m, net, other, first, second);
    SingleRun(k, signer, request, node, a);
    EventsWithTwo(a, first, second);
    after := LastCancel(clashed, second, net);
    QuietIsFair(c, ports);
    FairChain(c, ports, StageEvents(network), mid, StageEvents(vm) + first, clashed, second, after);
  }

  // ---- The attempts ----

  function Teardown(twin: nat, id: nat): seq<Event> {
    [Dropped(twin, id, Err(NotFound(""))), Cancelled(id, true, true)]
  }

  /** A stage for `d` whose wait returned `other`, and which failed after it. */
  ghost predicate Refused(k: Crypto, signer: nat, node: nat, twin: nat, s: Stage, d: DeployDeployment, other: nat) {
    && StageSpec(k, signer, node, twin, s) && Finished(s) && !Complete(s)
    && s != [] && s[0].Anchor? && s[0].deployment == d && StageIds(s) == [other]
  }

  lemma RefusedAttempt(k: Crypto, signer: nat, request: Request, a: Attempt, d: DeployDeployment, other: nat)
    requires !request.CreatesNetwork() && other != 0
    requires a.ports == [] && a.network == [] && a.readback == []
    requires a.info == Ok(NetworkInfo(request.name, request.ip, 0)) && a.result.Err?
    requires Refused(k, signer, a.node, a.twin, a.vm, d, other)
    requires MachineBuilt(request, signer, a.info.value, a.suffix, d) && a.rollback == Teardown(a.twin, other)
    ensures AttemptSpec(k, signer, request, a)
  {
    hide StageSpec, MachineBuilt, OutcomeOf;
    assert AttemptIds(a) == [other];
    hide AttemptIds, StageIds;
    assert BodySpec(k, signer, request, a);
    hide BodySpec;
    OneTornDown(a.twin, other, a.rollback);
  }

  lemma RefusedNetworkAttempt(k: Crypto, signer: nat, request: Request, a: Attempt, d: DeployDeployment, other: nat)
    requires Planned(request, a.twin, a.suffix, a.ports) && other != 0
    requires Refused(k, signer, a.node, a.twin, a.network, d, other)
    requires NetworkBuilt(request, signer, a.suffix, a.ports, d) && a.rollback == Teardown(a.twin, other)
    requires a.info.Err? && a.result == Err(a.info.error) && a.vm == [] && a.readback == []
    ensures AttemptSpec(k, signer, request, a)
  {
    hide StageSpec, NetworkBuilt, VmIpFromSubnet;
    assert AttemptIds(a) == [other];
    hide AttemptIds, StageIds;
    assert BodySpec(k, signer, request, a);
    hide BodySpec;
    OneTornDown(a.twin, other, a.rollback);
  }

  lemma RefusedMachineAttempt(k: Crypto, signer: nat, request: Request, a: Attempt, d: DeployDeployment,
                              m: DeployDeployment, net: nat, other: nat, first: seq<Event>, second: seq<Event>)
    requires Planned(request, a.twin, a.suffix, a.ports) && other != 0 && net != 0
    requires StageSpec(k, signer, a.node, a.twin, a.network) && Complete(a.network)
    requires a.network[0].deployment == d && a.network[1].found.value == net
    requires NetworkBuilt(request, signer, a.suffix, a.ports, d)
    requires a.info == Ok(PlannedNetwork(request, a.suffix, net))
    requires Refused(k, signer, a.node, a.twin, a.vm, m, other)
    requires MachineBuilt(request, signer, a.info.value, a.suffix, m)
    requires a.result.Err? && a.readback == [] && a.rollback == first + second
    requires first == Teardown(a.twin, other) && second == Teardown(a.twin, net)
    ensures AttemptSpec(k, signer, request, a)
  {
    hide StageSpec, NetworkBuilt, MachineBuilt, VmIpFromSubnet, OutcomeOf, ReadsBack;
    CompleteStageIds(k, signer, a.node, a.twin, a.network);
    assert AttemptIds(a) == [net, other];
    hide AttemptIds, StageIds;
    assert NetworkSpec(k, signer, request, a.node, a.twin, a.suffix, a.ports, a.network, a.info);
    assert MachineSpec(k, signer, request, a.node, a.twin, a.info.value, a.suffix, a.vm, a.readback, a.result);
    hide NetworkSpec, MachineSpec;
    assert BodySpec(k, signer, request, a);
    hide BodySpec;
    OneTornDown(a.twin, net, second);
    assert [net, other][..1] == [net] && a.rollback[2..] == second;
  }

  /** A failed attempt on the only candidate is a whole run. */
  lemma SingleRun(k: Crypto, signer: nat, request: Request, node: ProxyNode, a: Attempt)
    requires AttemptSpec(k, signer, request, a) && a.node == node.nodeId && a.twin == node.twinId && a.result.Err?
    ensures FailoverSpec(k, signer, request, [node], [a], a.result) && Flatten([a]) == AttemptEvents(a)
  {
    hide AttemptSpec, AttemptEvents;
    assert [a][..0] == [];
    assert RunSpec(k, signer, request, [node], [a]);
  }

  lemma EventsOf(a: Attempt)
    ensures AttemptEvents(a)
            == a.ports + StageEvents(a.network) + StageEvents(a.vm) + a.readback + a.rollback
  {
    hide StageEvents;
  }

  lemma EventsWithTwo(a: Attempt, first: seq<Event>, second: seq<Event>)
    requires a.readback == [] && a.rollback == first + second
    ensures AttemptEvents(a) == a.ports + (StageEvents(a.network) + ((StageEvents(a.vm) + first) + second))
  {
    hide AttemptEvents, StageEvents;
    EventsOf(a);
  }

  // ---- The stages ----

  /** A stage that meets a clash, torn down: the other contract goes, and the own one stays. */
  lemma ClashedStage(c: Chain, k: Crypto, signer: nat, node: ProxyNode, d: DeployDeployment, hash: string,
                     other: nat, own: nat, rollback: seq<Event>) returns (s: Stage, after: Chain)
    requires SignedOver(k, signer, d, hash) && HashClash(c, node.nodeId, hash, other) && own !in c && own != 0
    requires rollback == Teardown(node.twinId, other)
    ensures Refused(k, signer, node.nodeId, node.twinId, s, d, other)
    ensures Fair(c, StageEvents(s) + rollback, after)
    ensures Live(after) == Live(c) + {own} - {other} && after.Keys == c.Keys + {own}
  {
    hide SignedOver, StageSpec, StageEvents, Fair, PublicIpCount;
    var create := Created(node.nodeId, hash, d.metadata, PublicIpCount(d.workloads), own, true);
    s := RefusedStage(k, signer, node, d, create, other);
    after := ClashRun(c, create, other, StageEvents(s), rollback);
  }

  /** A stage that creates `id` and completes. */
  lemma CreatedStage(c: Chain, k: Crypto, signer: nat, node: ProxyNode, d: DeployDeployment, hash: string, id: nat)
    returns (s: Stage, after: Chain)
    requires SignedOver(k, signer, d, hash) && id !in c && id != 0
    ensures StageSpec(k, signer, node.nodeId, node.twinId, s) && Complete(s)
    ensures s[0].deployment == d && s[1].found.value == id
    ensures Fair(c, StageEvents(s), after) && after == c[id := Contract(node.nodeId, hash, true)]
  {
    hide SignedOver, StageSpec, Fair, Settled, PublicIpCount;
    var w := OneOk();
    s := SettlingStage(k, signer, node.nodeId, node.twinId, d, hash, id, [w]);
    FourLegs(s[0], s[1], s[2], s[3]);
    assert s == [s[0], s[1], s[2], s[3]];
    hide StageEvents;
    after := SettlingRun(c, StageEvents(s), node.nodeId, hash, id);
  }

  lemma ThreeLegs(a: Leg, b: Leg, d: Leg)
    ensures StageEvents([a, b, d]) == a.Events() + b.Events() + d.Events()
  {
    LastLeg([], a);
    LastLeg([a], b);
    LastLeg([a, b], d);
    NoStageEvents();
    hide StageEvents;
    assert [] + [a] == [a] && [a] + [b] == [a, b] && [a, b] + [d] == [a, b, d];
  }

  lemma FourLegs(a: Leg, b: Leg, d: Leg, e: Leg)
    ensures StageEvents([a, b, d, e]) == a.Events() + b.Events() + d.Events() + e.Events()
  {
    ThreeLegs(a, b, d);
    LastLeg([a, b, d], e);
    hide StageEvents;
    assert [a, b, d] + [e] == [a, b, d, e];
  }

  lemma LastLeg(s: Stage, l: Leg)
    ensures StageEvents(s + [l]) == StageEvents(s) + l.Events()
  {
    assert (s + [l])[..|s|] == s;
  }

  lemma OneOk() returns (w: DeployWorkload)
    ensures Settled([w])
  {
    w := PublicIpWorkload("", false, false).(result := EMPTY_RESULT.(state := "ok"));
    AllOkSettlesIff([w]);
  }

  /** A stage whose lookup lists `other` and whose node then refuses the deployment. */
  lemma RefusedStage(k: Crypto, signer: nat, node: ProxyNode, d: DeployDeployment, create: Event, other: nat)
    returns (s: Stage)
    requires create.Created? && create.ok && SignedOver(k, signer, d, create.hash) && create.node == node.nodeId
    requires create.data == d.metadata && create.ips == PublicIpCount(d.workloads)
    ensures StageSpec(k, signer, node.nodeId, node.twinId, s) && Finished(s) && !Complete(s)
    ensures s != [] && s[0] == Anchor(d, create.hash, create) && StageIds(s) == [other]
    ensures |StageEvents(s)| == 5 && StageEvents(s)[..2] == [create, Looked(node.nodeId, create.hash, Listed([other]))]
    ensures forall i :: 2 <= i < 5 ==> !TouchesChain(StageEvents(s)[i]) && !Hit(StageEvents(s)[i])
  {
    hide SignedOver, PublicIpCount;
    var anchor := Anchor(d, create.hash, create);
    assert AnchorSpec(k, signer, node.nodeId, anchor);
    hide AnchorSpec, WaitSpec, ConfirmSpec, StageEvents;
    var wait := OneLookup(node.nodeId, create.hash, other);
    var refused := RefusedSend(node.twinId, d.(contractId := other));
    var confirm := Confirm(refused, Err(NotFound("")));
    s := [anchor, wait, confirm];
    assert LegSpec(k, signer, node.nodeId, node.twinId, s, 0) && LegSpec(k, signer, node.nodeId, node.twinId, s, 1);
    assert LegSpec(k, signer, node.nodeId, node.twinId, s, 2);
    ThreeLegs(anchor, wait, confirm);
  }

  lemma OneLookup(node: nat, hash: string, id: nat) returns (l: Leg)
    ensures l == Wait([Looked(node, hash, Listed([id]))], Ok(id)) && WaitSpec(node, hash, l.trace, l.found)
  {
    l := Wait([Looked(node, hash, Listed([id]))], Ok(id));
    OneEvent(Looking(node, hash), l.trace[0]);
  }

  lemma RefusedSend(twin: nat, d: DeployDeployment) returns (tr: seq<Event>)
    ensures ConfirmSpec(twin, d, tr, Err(NotFound("")))
    ensures |tr| == 3 && forall i :: 0 <= i < 3 ==> !TouchesChain(tr[i]) && !Hit(tr[i])
  {
    hide Contains, Count, Undecided;
    var sent, slept, got := Sent(twin, d, Err(NotFound(""))), Slept(2_000), Got(twin, d.contractId, Err(NotFound("")));
    tr := [sent, slept, got];
    ThreeCounted(sent, slept, got, IsSent);
    ThreeCounted(sent, slept, got, IsGot);
    ThreeUndecided(Sending(twin, d), sent, slept, got);
    hide PhaseSpec;
    assert FatalGet(got);
  }

  lemma ThreeCounted(a: Event, b: Event, e: Event, p: Event -> bool)
    ensures Count([a, b, e], p) == (if p(a) then 1 else 0) + (if p(b) then 1 else 0) + (if p(e) then 1 else 0)
  {
    CountPush([], a, p);
    CountPush([a], b, p);
    CountPush([a, b], e, p);
    assert Count([], p) == 0;
    hide Count;
    assert [] + [a] == [a] && [a] + [b] == [a, b] && [a, b] + [e] == [a, b, e];
  }

  lemma ThreeUndecided(p: Phase, a: Event, b: Event, e: Event)
    requires p.Fits(a) && p.Fits(b) && p.Fits(e) && !p.Decides(a) && !p.Decides(b)
    ensures PhaseSpec(p, [a, b, e], p.Decides(e))
  {
    hide Phase.Fits, Phase.Decides, PhaseSpec;
    assert Undecided(p, []);
    hide Undecided;
    UndecidedPush(p, [], a);
    UndecidedPush(p, [] + [a], b);
    UndecidedPush(p, [] + [a] + [b], e);
    assert [] + [a] + [b] + [e] == [a, b, e];
  }

  // ---- Their runs ----

  lemma FairAppend(c: Chain, a: seq<Event>, mid: Chain, b: seq<Event>, after: Chain)
    requires Fair(c, a, mid) && Fair(mid, b, after)
    ensures Fair(c, a + b, after)
  {
    hide Run, Replay;
    RunAppend(c, a, mid, b, after);
    RunReplays(c, a, mid);
    forall j | 0 <= j < |a + b| && Hit((a + b)[j])
      ensures var m, id := Replay(c, (a + b)[..j]), (a + b)[j].reply.ids[0];
              id in Live(m) && m[id].node == (a + b)[j].node && m[id].hash == (a + b)[j].hash
    {
      if j < |a| {
        assert (a + b)[..j] == a[..j];
      } else {
        assert (a + b)[..j] == a + b[..j - |a|];
        ReplayAppend(c, a, b[..j - |a|]);
      }
    }
  }

  lemma FairChain(c: Chain, quiet: seq<Event>, a: seq<Event>, mid: Chain, b: seq<Event>, late: Chain, d: seq<Event>,
                  after: Chain)
    requires Fair(c, quiet, c) && Fair(c, a, mid) && Fair(mid, b, late) && Fair(late, d, after)
    ensures Fair(c, quiet + (a + (b + d)), after)
  {
    hide Fair;
    FairAppend(mid, b, late, d, after);
    FairAppend(c, a, mid, b + d, after);
    FairAppend(c, quiet, c, a + (b + d), after);
  }

  lemma QuietIsFair(c: Chain, tr: seq<Event>)
    requires forall e :: e in tr ==> !TouchesChain(e) && !Hit(e)
    ensures Fair(c, tr, c)
  {
    QuietRun(c, tr);
  }

  lemma LastCancel(c: Chain, tr: seq<Event>, id: nat) returns (after: Chain)
    requires |tr| == 2 && tr[0].Dropped? && tr[1] == Cancelled(id, true, true) && id in c
    ensures Fair(c, tr, after) && Live(after) == Live(c) - {id}
  {
    after := Step(c, tr[1]);
    QuietRun(c, [tr[0]]);
    RunPush(c, [tr[0]], c, tr[1]);
    assert [tr[0]] + [tr[1]] == tr;
  }

  lemma SettlingRun(c: Chain, ev: seq<Event>, node: nat, hash: string, id: nat) returns (after: Chain)
    requires |ev| == 4 && ev[0].Created? && ev[0].id == id && ev[0].node == node && ev[0].hash == hash
    requires id !in c && id != 0 && ev[1] == Looked(node, hash, Listed([id]))
    requires forall i :: 2 <= i < 4 ==> !TouchesChain(ev[i]) && !Hit(ev[i])
    ensures Fair(c, ev, after) && after == c[id := Contract(node, hash, true)]
  {
    hide Run, Replay;
    after := Step(c, ev[0]);
    QuietRun(c, []);
    RunPush(c, [], c, ev[0]);
    var quiet := ev[1..];
    assert forall e :: e in quiet ==> !TouchesChain(e);
    QuietRun(after, quiet);
    RunAppend(c, [] + [ev[0]], after, quiet, after);
    assert ev == [] + [ev[0]] + quiet && ev[..1] == [] + [ev[0]];
    RunReplays(c, [] + [ev[0]], after);
    assert forall j :: 0 <= j < 4 && Hit(ev[j]) ==> j == 1;
  }

  lemma ClashRun(c: Chain, create: Event, other: nat, ev: seq<Event>, rollback: seq<Event>) returns (after: Chain)
    requires create.Created? && create.ok && create.id !in c && create.id != 0
    requires other in Live(c) && c[other].node == create.node && c[other].hash == create.hash
    requires |ev| == 5 && ev[..2] == [create, Looked(create.node, create.hash, Listed([other]))]
    requires forall i :: 2 <= i < 5 ==> !TouchesChain(ev[i]) && !Hit(ev[i])
    requires |rollback| == 2 && rollback[0].Dropped? && rollback[1] == Cancelled(other, true, true)
    ensures Fair(c, ev + rollback, after)
    ensures Live(after) == Live(c) + {create.id} - {other} && after.Keys == c.Keys + {create.id}
  {
    hide Run, Replay;
    var mid, tr := Step(c, create), ev + rollback;
    var quiet := tr[1..6];
    assert forall e :: e in quiet ==> !TouchesChain(e);
    after := Step(mid, rollback[1]);
    QuietRun(c, []);
    RunPush(c, [], c, create);
    QuietRun(mid, quiet);
    RunAppend(c, [] + [create], mid, quiet, mid);
    RunPush(c, [] + [create] + quiet, mid, rollback[1]);
    assert tr == [] + [create] + quiet + [rollback[1]];
    assert tr[..1] == [] + [create];
    RunReplays(c, [] + [create], mid);
    assert forall j :: 0 <= j < 7 && Hit(tr[j]) ==> j == 1;
  }
}
