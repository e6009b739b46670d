/** Flattening a typed deployment and reading it back, and what is charged for it. */
module RoundTrips {
  import opened GridErrors
  import opened Text
  import opened Workloads

  // ---- Collecting from concatenations and maps ----

  lemma {:induction false} CollectAppend<T>(a: seq<Workload>, b: seq<Workload>, f: Workload -> Option<T>)
    ensures Collect(a + b, f) == Collect(a, f) + Collect(b, f)
    decreases |b|
  {
    if b == [] {
      assert a + b == a;
    } else {
      assert (a + b)[..|a + b| - 1] == a + b[..|b| - 1];
      CollectAppend(a, b[..|b| - 1], f);
    }
  }

  lemma {:induction false} CollectNone<T>(ws: seq<Workload>, f: Workload -> Option<T>)
    requires forall w :: w in ws ==> f(w) == None
    ensures Collect(ws, f) == []
    decreases |ws|
  {
    if ws != [] { CollectNone(ws[..|ws| - 1], f); }
  }

  lemma {:induction false} CollectMap<S, T>(xs: seq<S>, g: S -> Workload, f: Workload -> Option<T>, h: S -> T)
    requires forall x :: x in xs ==> f(g(x)) == Some(h(x))
    ensures Collect(Map(xs, g), f) == Map(xs, h)
    decreases |xs|
  {
    if xs != [] {
      var n := |xs| - 1;
      CollectMap(xs[..n], g, f, h);
      assert Map(xs, g) == Map(xs[..n], g) + [g(xs[n])];
      CollectPush(Map(xs[..n], g), g(xs[n]), f);
      assert Map(xs, h) == Map(xs[..n], h) + [h(xs[n])];
    }
  }

  lemma MapCons<S, T>(xs: seq<S>, h: S -> T)
    requires xs != []
    ensures Map(xs, h) == [h(xs[0])] + Map(xs[1..], h)
  {
  }

  lemma CollectOneVm<T>(vm: VM, f: Workload -> Option<T>)
    requires forall name, v4, v6 :: f(PublicIpWorkload(name, v4, v6)) == None
    requires f(VmWorkload(vm)).Some?
    ensures Collect(VmWorkloads(vm), f) == [f(VmWorkload(vm)).value]
  {
    hide Collect, VmWorkload, PublicIpWorkload;
    var pre := VmWorkloads(vm)[..|VmWorkloads(vm)| - 1];
    CollectNone(pre, f);
    CollectPush(pre, VmWorkload(vm), f);
    assert VmWorkloads(vm) == pre + [VmWorkload(vm)];
  }

  lemma {:induction false} CollectVms<T>(vms: seq<VM>, f: Workload -> Option<T>, h: VM -> T)
    requires forall name, v4, v6 :: f(PublicIpWorkload(name, v4, v6)) == None
    requires forall vm :: vm in vms ==> f(VmWorkload(vm)) == Some(h(vm))
    ensures Collect(AllVmWorkloads(vms), f) == Map(vms, h)
  {
    if vms != [] {
      hide VmWorkloads, VmWorkload, PublicIpWorkload, Collect;
      assert forall vm :: vm in vms[1..] ==> vm in vms;
      CollectVms(vms[1..], f, h);
      CollectAppend(VmWorkloads(vms[0]), AllVmWorkloads(vms[1..]), f);
      CollectOneVm(vms[0], f);
      MapCons(vms, h);
    } else {
      CollectNone([], f);
    }
  }

  // ---- The segments of a flattened deployment ----

  function Segment(d: Deployment, k: nat): seq<Workload> {
    match k
    case 0 => Map(d.disks, DiskWorkload)
    case 1 => Map(d.volumes, VolumeWorkload)
    case 2 => Map(d.zdbs, ZdbWorkload)
    case 3 => AllVmWorkloads(d.vms)
    case 4 => Map(d.vmsLight, VmLightWorkload)
    case 5 => Map(d.qsfs, QsfsWorkload)
    case 6 => Map(d.gatewayNames, GatewayNameWorkload)
    case 7 => Map(d.gatewayFqdns, GatewayFqdnWorkload)
    case _ => []
  }

  const KINDS := [ZMOUNT_TYPE, VOLUME_TYPE, ZDB_TYPE, ZMACHINE_TYPE, ZMACHINE_LIGHT_TYPE, QUANTUM_SAFE_FS_TYPE,
                  GATEWAY_NAME_PROXY_TYPE, GATEWAY_FQDN_PROXY_TYPE]

  lemma {:induction false} VmWorkloadKinds(vms: seq<VM>, w: Workload)
    requires w in AllVmWorkloads(vms)
    ensures w.result == DEFAULT_RESULT
    ensures w.kind == PUBLIC_IP_TYPE || exists vm :: vm in vms && w == VmWorkload(vm)
  {
    if w in VmWorkloads(vms[0]) {
      assert vms[0] in vms;
    } else {
      VmWorkloadKinds(vms[1..], w);
      if vm :| vm in vms[1..] && w == VmWorkload(vm) { assert vm in vms; }
    }
  }

  /** Everything flattened has its segment's kind - or is a machine's address - and no result yet. */
  lemma SegmentKind(d: Deployment, k: nat, w: Workload)
    requires k < 8 && w in Segment(d, k)
    ensures w.result == DEFAULT_RESULT
    ensures w.kind == KINDS[k] || (k == 3 && w.kind == PUBLIC_IP_TYPE)
  {
    if k == 3 { VmWorkloadKinds(d.vms, w); }
  }

  function Joined(d: Deployment, k: nat): seq<Workload>
    requires k <= 8
    decreases 8 - k
  {
    if k == 8 then [] else if k == 7 then Segment(d, 7) else Segment(d, k) + Joined(d, k + 1)
  }

  lemma FlattenJoins(d: Deployment)
    ensures Flatten(d) == Joined(d, 0)
  {
    assert Joined(d, 4) == Segment(d, 4) + (Segment(d, 5) + (Segment(d, 6) + Segment(d, 7)));
    assert Joined(d, 0) == Segment(d, 0) + (Segment(d, 1) + (Segment(d, 2) + (Segment(d, 3) + Joined(d, 4))));
  }

  /** Reading for one kind only looks at that kind's segment. */
  lemma {:induction false} CollectSegment<T>(d: Deployment, k: nat, from: nat, f: Workload -> Option<T>)
    requires k < 8 && from <= 8
    requires forall w: Workload :: w.kind != KINDS[k] ==> f(w) == None
    ensures Collect(Joined(d, from), f) == if from <= k then Collect(Segment(d, k), f) else []
    decreases 8 - from
  {
    hide Segment, Collect;
    if from == 8 {
      CollectNone([], f);
    } else {
      CollectSegment(d, k, from + 1, f);
      if from != k {
        forall w | w in Segment(d, from) ensures f(w) == None { SegmentKind(d, from, w); }
        CollectNone(Segment(d, from), f);
      }
      if from < 7 { CollectAppend(Segment(d, from), Joined(d, from + 1), f); }
    }
  }

  lemma CollectFlat<T>(d: Deployment, k: nat, f: Workload -> Option<T>)
    requires k < 8
    requires forall w: Workload :: w.kind != KINDS[k] ==> f(w) == None
    ensures Collect(Flatten(d), f) == Collect(Segment(d, k), f)
  {
    hide Segment, Collect, Flatten;
    FlattenJoins(d);
    CollectSegment(d, k, 0, f);
  }

  lemma {:induction false} InJoined(d: Deployment, from: nat, w: Workload) returns (k: nat)
    requires from <= 8 && w in Joined(d, from)
    ensures from <= k < 8 && w in Segment(d, k)
    decreases 8 - from
  {
    if w in Segment(d, from) {
      k := from;
    } else {
      k := InJoined(d, from + 1, w);
    }
  }

  // ---- What survives ----

  function ZdbRead(z: ZDB): ZDB { z.(password := "", ips := [], port := 0, namespace := "") }

  function ChecksumOr(o: Oracles, flist: string): string {
    if FlistChecksum(o, flist).Ok? then FlistChecksum(o, flist).value else ""
  }

  /** A machine keeps what its workload data carries; addresses, seeds, logs and results are lost. */
  function VmRead(o: Oracles, nodeId: nat): VM -> VM {
    (vm: VM) => vm.(nodeId := nodeId, flistChecksum := ChecksumOr(o, vm.flist), publicIp := false, publicIp6 := false,
                    planetary := false, myceliumIpSeed := [], zlogs := [], computedIp := "", computedIp6 := "",
                    planetaryIp := "", myceliumIp := "", consoleUrl := "")
  }

  function VmLightRead(o: Oracles, nodeId: nat): VMLight -> VMLight {
    (vm: VMLight) => vm.(nodeId := nodeId, flistChecksum := ChecksumOr(o, vm.flist), myceliumIpSeed := [], zlogs := [],
                         myceliumIp := "", consoleUrl := "", computedIp := "", computedIp6 := "")
  }

  predicate FlistsHaveChecksums(o: Oracles, d: Deployment) {
    && (forall vm :: vm in d.vms ==> FlistChecksum(o, vm.flist).Ok?)
    && (forall vm :: vm in d.vmsLight ==> FlistChecksum(o, vm.flist).Ok?)
  }

  lemma {:induction false} NoAddressYet(o: Oracles, ws: seq<Workload>, name: string)
    requires forall w :: w in ws ==> w.result == DEFAULT_RESULT
    ensures ResolvePublicIps(o, ws, name) == (None, None)
  {
    FoundIsMember(ws, name + "ip");
  }

  lemma {:induction false} FoundIsMember(ws: seq<Workload>, name: string)
    ensures FindWorkload(ws, name).Some? ==> FindWorkload(ws, name).value in ws
  {
    if ws != [] && ws[0].name != name { FoundIsMember(ws[1..], name); }
  }

  lemma FlattenHasNoResults(d: Deployment)
    ensures forall w :: w in Flatten(d) ==> w.result == DEFAULT_RESULT
  {
    FlattenJoins(d);
    forall w | w in Flatten(d) ensures w.result == DEFAULT_RESULT {
      var k := InJoined(d, 0, w);
      SegmentKind(d, k, w);
    }
  }

  lemma {:induction false} VmInWorkloads(vms: seq<VM>, vm: VM)
    requires vm in vms
    ensures VmWorkload(vm) in AllVmWorkloads(vms)
  {
    if vm == vms[0] {
      var ws := VmWorkloads(vm);
      assert ws[|ws| - 1] == VmWorkload(vm);
    } else {
      VmInWorkloads(vms[1..], vm);
    }
  }

  lemma VmInFlatten(d: Deployment, vm: VM)
    requires vm in d.vms
    ensures VmWorkload(vm) in Flatten(d)
  {
    VmInWorkloads(d.vms, vm);
  }

  lemma VmLightInFlatten(d: Deployment, vm: VMLight)
    requires vm in d.vmsLight
    ensures VmLightWorkload(vm) in Flatten(d)
  {
    var i :| 0 <= i < |d.vmsLight| && d.vmsLight[i] == vm;
    assert Map(d.vmsLight, VmLightWorkload)[i] == VmLightWorkload(vm);
  }

  lemma SegmentReadable(o: Oracles, d: Deployment, k: nat, w: Workload)
    requires FlistsHaveChecksums(o, d) && k < 8 && w in Segment(d, k)
    ensures Readable(o, w)
  {
    hide FlistChecksum;
    SegmentKind(d, k, w);
    if k == 3 { VmWorkloadKinds(d.vms, w); }
  }

  /** Reading a flattened deployment succeeds exactly when every machine's flist has a checksum,
      which a blank flist never has. */
  lemma ReadableIffChecksums(o: Oracles, d: Deployment)
    ensures (forall w :: w in Flatten(d) ==> Readable(o, w)) <==> FlistsHaveChecksums(o, d)
  {
    hide Flatten, FlistChecksum, Segment;
    FlattenJoins(d);
    if FlistsHaveChecksums(o, d) {
      forall w | w in Flatten(d) ensures Readable(o, w) {
        var k := InJoined(d, 0, w);
        SegmentReadable(o, d, k, w);
      }
    }
    if forall w :: w in Flatten(d) ==> Readable(o, w) {
      forall vm | vm in d.vms ensures FlistChecksum(o, vm.flist).Ok? {
        VmInFlatten(d, vm);
        assert Readable(o, VmWorkload(vm));
      }
      forall vm | vm in d.vmsLight ensures FlistChecksum(o, vm.flist).Ok? {
        VmLightInFlatten(d, vm);
        assert Readable(o, VmLightWorkload(vm));
      }
    }
  }

  lemma DisksSurvive(d: Deployment)
    ensures Collect(Flatten(d), AsDisk) == d.disks
    ensures Collect(Flatten(d), AsVolume) == d.volumes
  {
    hide Flatten, Collect;
    CollectFlat(d, 0, AsDisk);
    CollectMap(d.disks, DiskWorkload, AsDisk, (x: Disk) => x);
    CollectFlat(d, 1, AsVolume);
    CollectMap(d.volumes, VolumeWorkload, AsVolume, (x: Volume) => x);
  }

  lemma DatabasesSurvive(d: Deployment)
    ensures Collect(Flatten(d), AsZdb) == Map(d.zdbs, ZdbRead)
    ensures Collect(Flatten(d), AsQsfs) == d.qsfs
  {
    hide Flatten, Collect;
    CollectFlat(d, 2, AsZdb);
    CollectMap(d.zdbs, ZdbWorkload, AsZdb, ZdbRead);
    CollectFlat(d, 5, AsQsfs);
    CollectMap(d.qsfs, QsfsWorkload, AsQsfs, (x: QSFS) => x);
  }

  lemma VmSurvives(o: Oracles, z: ZosDeployment, nodeId: nat, vm: VM)
    requires FlistChecksum(o, vm.flist).Ok?
    requires ResolvePublicIps(o, z.workloads, vm.name) == (None, None)
    ensures AsVm(o, z, nodeId)(VmWorkload(vm)) == Some(VmRead(o, nodeId)(vm))
  {
    hide ResolvePublicIps, FlistChecksum;
  }

  lemma VmsSurvive(o: Oracles, d: Deployment, twinId: nat, nodeId: nat)
    requires FlistsHaveChecksums(o, d)
    ensures Collect(Flatten(d), AsVm(o, ToZos(d, twinId), nodeId)) == Map(d.vms, VmRead(o, nodeId))
  {
    hide Flatten, Collect, AllVmWorkloads, ResolvePublicIps, ReadVm, VmRead, FlistChecksum;
    var z := ToZos(d, twinId);
    CollectFlat(d, 3, AsVm(o, z, nodeId));
    FlattenHasNoResults(d);
    forall vm | vm in d.vms ensures AsVm(o, z, nodeId)(VmWorkload(vm)) == Some(VmRead(o, nodeId)(vm)) {
      NoAddressYet(o, z.workloads, vm.name);
      VmSurvives(o, z, nodeId, vm);
    }
    CollectVms(d.vms, AsVm(o, z, nodeId), VmRead(o, nodeId));
  }

  lemma VmsLightSurvive(o: Oracles, d: Deployment, nodeId: nat)
    requires FlistsHaveChecksums(o, d)
    ensures Collect(Flatten(d), AsVmLight(o, nodeId)) == Map(d.vmsLight, VmLightRead(o, nodeId))
  {
    hide Flatten, Collect, FlistChecksum;
    CollectFlat(d, 4, AsVmLight(o, nodeId));
    CollectMap(d.vmsLight, VmLightWorkload, AsVmLight(o, nodeId), VmLightRead(o, nodeId));
  }

  /** The machines in the middle of a flattened deployment. */
  function Others(d: Deployment): (seq<Workload>, seq<Workload>) {
    (Segment(d, 0) + (Segment(d, 1) + Segment(d, 2)), Segment(d, 5) + (Segment(d, 6) + Segment(d, 7)))
  }

  lemma FlattenAroundMachines(d: Deployment)
    ensures var (before, after) := Others(d);
            Flatten(d) == before + ((Segment(d, 3) + Segment(d, 4)) + after)
  {
    hide Segment, Flatten;
    FlattenJoins(d);
    assert Joined(d, 5) == Segment(d, 5) + (Segment(d, 6) + Segment(d, 7));
    assert Joined(d, 3) == Segment(d, 3) + (Segment(d, 4) + Joined(d, 5));
    assert Joined(d, 0) == Segment(d, 0) + (Segment(d, 1) + (Segment(d, 2) + Joined(d, 3)));
  }

  lemma OthersHaveNoNetwork(d: Deployment)
    ensures Collect(Others(d).0, AsNetworkName) == [] && Collect(Others(d).1, AsNetworkName) == []
  {
    hide Segment, Collect;
    forall k, w | k in {0, 1, 2, 5, 6, 7} && w in Segment(d, k) ensures AsNetworkName(w) == None {
      SegmentKind(d, k, w);
    }
    CollectNone(Others(d).0, AsNetworkName);
    CollectNone(Others(d).1, AsNetworkName);
  }

  lemma NetworkNames(d: Deployment)
    ensures Collect(Flatten(d), AsNetworkName)
         == Map(d.vms, (vm: VM) => vm.networkName) + Map(d.vmsLight, (vm: VMLight) => vm.networkName)
  {
    hide Flatten, Collect, Others, AllVmWorkloads;
    FlattenAroundMachines(d);
    OthersHaveNoNetwork(d);
    CollectAppend(Others(d).0, (Segment(d, 3) + Segment(d, 4)) + Others(d).1, AsNetworkName);
    CollectAppend(Segment(d, 3) + Segment(d, 4), Others(d).1, AsNetworkName);
    CollectAppend(Segment(d, 3), Segment(d, 4), AsNetworkName);
    CollectVms(d.vms, AsNetworkName, (vm: VM) => vm.networkName);
    CollectMap(d.vmsLight, VmLightWorkload, AsNetworkName, (vm: VMLight) => vm.networkName);
  }

  /** Round trip: reading back a flattened deployment gives the same name, disks, volumes and QSFS in
      order, the databases without their secrets, and the machines without what workload data does
      not carry. An empty solution type comes back as the name, the network is that of the last
      machine, and gateways are not read. */
  lemma ReadingInvertsFlattening(o: Oracles, d: Deployment, twinId: nat, nodeId: nat)
    requires FlistsHaveChecksums(o, d)
    ensures var z := ToZos(d, twinId);
            var names := Map(d.vms, (vm: VM) => vm.networkName) + Map(d.vmsLight, (vm: VMLight) => vm.networkName);
            && z.metadata.Metadata?
            && ReadLists(o, z, nodeId, z.workloads)
               == Deployment(d.name, nodeId, if d.solutionType == "" then d.name else d.solutionType, None,
                             LastOr(names, ""), d.disks, Map(d.zdbs, ZdbRead), Map(d.vms, VmRead(o, nodeId)),
                             Map(d.vmsLight, VmLightRead(o, nodeId)), d.qsfs, d.volumes, [], [],
                             map[nodeId := d.contractId], d.contractId, "")
  {
    DisksSurvive(d);
    DatabasesSurvive(d);
    VmsSurvive(o, d, twinId, nodeId);
    VmsLightSurvive(o, d, nodeId);
    NetworkNames(d);
  }

  // ---- Public addresses ----

  function CountAddresses(ws: seq<Workload>): nat {
    if ws == [] then 0 else (if ws[0].kind == PUBLIC_IP_TYPE then 1 else 0) + CountAddresses(ws[1..])
  }

  /** `get_public_ip_count`. */
  function GetPublicIpCount(vms: seq<VM>): nat {
    if vms == [] then 0 else (if vms[0].publicIp || vms[0].publicIp6 then 1 else 0) + GetPublicIpCount(vms[1..])
  }

  lemma {:induction false} CountAppend(a: seq<Workload>, b: seq<Workload>)
    ensures CountAddresses(a + b) == CountAddresses(a) + CountAddresses(b)
  {
    if a == [] {
      assert a + b == b;
    } else {
      CountAppend(a[1..], b);
      assert (a + b)[1..] == a[1..] + b;
    }
  }

  lemma {:induction false} CountNone(ws: seq<Workload>)
    requires forall w :: w in ws ==> w.kind != PUBLIC_IP_TYPE
    ensures CountAddresses(ws) == 0
  {
    if ws != [] {
      assert ws[0] in ws;
      CountNone(ws[1..]);
    }
  }

  lemma {:induction false} CountVms(vms: seq<VM>)
    ensures CountAddresses(AllVmWorkloads(vms)) == GetPublicIpCount(vms)
  {
    if vms != [] {
      CountVms(vms[1..]);
      CountAppend(VmWorkloads(vms[0]), AllVmWorkloads(vms[1..]));
      var ws := VmWorkloads(vms[0]);
      CountNone(ws[|ws| - 1..]);
      CountAppend(ws[..|ws| - 1], ws[|ws| - 1..]);
      assert ws[..|ws| - 1] + ws[|ws| - 1..] == ws;
      if |ws| == 2 { assert ws[..1][1..] == []; }
    }
  }

  /** The public addresses charged on chain are the address workloads the node is sent. */
  lemma ChargedAddressesAreSent(d: Deployment)
    ensures GetPublicIpCount(d.vms) == CountAddresses(Flatten(d))
  {
    var others := Segment(d, 4) + (Segment(d, 5) + (Segment(d, 6) + Segment(d, 7)));
    var before := Segment(d, 0) + (Segment(d, 1) + Segment(d, 2));
    assert Flatten(d) == before + (Segment(d, 3) + others);
    forall k, w | k in {0, 1, 2, 4, 5, 6, 7} && w in Segment(d, k) ensures w.kind != PUBLIC_IP_TYPE {
      SegmentKind(d, k, w);
    }
    CountNone(before);
    CountNone(others);
    CountVms(d.vms);
    CountAppend(before, Segment(d, 3) + others);
    CountAppend(Segment(d, 3), others);
  }
}
