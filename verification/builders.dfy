/** The workload builders of src/grid_client/deployment.rs and the public address count. */
module Builders {
  import opened GridErrors
  import opened HexCodec
  import opened Deployments
  import Text

  datatype VolumeMount = VolumeMount(name: string, sizeBytes: nat, mountpoint: string, description: string)

  datatype VmLightSpec = VmLightSpec(
    name: Option<string>, flist: string, cpu: nat, memoryBytes: nat, rootfsSizeBytes: nat, entrypoint: string,
    env: map<string, string>, mounts: seq<Mount>, volumes: seq<VolumeMount>, corex: bool, gpu: seq<string>,
    myceliumSeed: Option<seq<Byte>>)

  datatype VmSpec = VmSpec(
    name: Option<string>, flist: string, cpu: nat, memoryBytes: nat, rootfsSizeBytes: nat, entrypoint: string,
    env: map<string, string>, volumes: seq<VolumeMount>, planetary: bool, publicIpv4: bool, publicIpv6: bool,
    corex: bool, gpu: seq<string>, myceliumSeed: Option<seq<Byte>>)

  /** Workload metadata of a live network; user accesses are written as null. */
  const NETWORK_METADATA := "{\"version\":4,\"user_accesses\":null}"

  function DeploymentMetadata(name: string, kind: string, projectName: string): string {
    "{\"version\":4,\"type\":\"" + kind + "\",\"name\":\"" + name + "\",\"projectName\":\"" + projectName + "\"}"
  }

  function BuildNetworkLight(name: string, subnet: string, key: seq<Byte>): DeployWorkload {
    DeployWorkload(0, name, NETWORK_LIGHT_TYPE, NetworkLightData(subnet, Some(Mycelium(key, []))),
                   NETWORK_METADATA, "network to deploy vm with mycelium", EMPTY_RESULT)
  }

  function BuildNetwork(name: string, ipRange: string, subnet: string, wireguardKey: string, port: nat,
                        key: Option<seq<Byte>>): DeployWorkload {
    var mycelium := if key.Some? then Some(Mycelium(key.value, [])) else None;
    DeployWorkload(0, name, NETWORK_TYPE, NetworkData(ipRange, subnet, wireguardKey, port, [], mycelium),
                   NETWORK_METADATA, "network to deploy vm", EMPTY_RESULT)
  }

  function BuildVolumeWorkload(v: VolumeMount): DeployWorkload {
    DeployWorkload(0, v.name, VOLUME_TYPE, VolumeData(Some(v.sizeBytes)), "", v.description, EMPTY_RESULT)
  }

  function VolumeWorkloads(volumes: seq<VolumeMount>): (ws: seq<DeployWorkload>)
    ensures |ws| == |volumes|
  {
    seq(|volumes|, i requires 0 <= i < |volumes| => BuildVolumeWorkload(volumes[i]))
  }

  function VolumeMounts(volumes: seq<VolumeMount>): seq<Mount> {
    seq(|volumes|, i requires 0 <= i < |volumes| => Mount(volumes[i].name, volumes[i].mountpoint))
  }

  function PublicIpWorkload(name: string, v4: bool, v6: bool): DeployWorkload {
    DeployWorkload(0, name, PUBLIC_IP_TYPE, PublicIpData(v4, v6), "", "", ResultData(0, "init", "", map[]))
  }

  function VmLightMachine(name: string, network: string, ip: string, spec: VmLightSpec,
                          seed: seq<Byte>): DeployWorkload {
    var data := MachineData(spec.flist, "", false, Some(MyceliumIp(network, seed)), [Interface(network, ip)],
                            spec.rootfsSizeBytes, spec.cpu, spec.memoryBytes, VolumeMounts(spec.volumes) + spec.mounts,
                            spec.entrypoint, spec.env, spec.corex, spec.gpu);
    DeployWorkload(0, name, ZMACHINE_LIGHT_TYPE, data, "", "", EMPTY_RESULT)
  }

  function PublicIpName(name: string, spec: VmSpec): string {
    if spec.publicIpv4 || spec.publicIpv6 then name + "ip" else ""
  }

  function VmMachine(name: string, network: string, ip: string, spec: VmSpec): DeployWorkload {
    var mycelium := if spec.myceliumSeed.Some? then Some(MyceliumIp(network, spec.myceliumSeed.value)) else None;
    var data := MachineData(spec.flist, PublicIpName(name, spec), spec.planetary, mycelium, [Interface(network, ip)],
                            spec.rootfsSizeBytes, spec.cpu, spec.memoryBytes, VolumeMounts(spec.volumes),
                            spec.entrypoint, spec.env, spec.corex, spec.gpu);
    DeployWorkload(0, name, ZMACHINE_TYPE, data, "", "", EMPTY_RESULT)
  }

  /** A light machine's deployment: the volumes in order, then the machine. */
  function VmLightWorkloads(name: string, network: string, ip: string, spec: VmLightSpec,
                            seed: seq<Byte>): seq<DeployWorkload> {
    VolumeWorkloads(spec.volumes) + [VmLightMachine(name, network, ip, spec, seed)]
  }

  /** A full machine's: an address workload when a public address is wanted, the volumes, the machine. */
  function VmWorkloads(name: string, network: string, ip: string, spec: VmSpec): seq<DeployWorkload> {
    (if spec.publicIpv4 || spec.publicIpv6
     then [PublicIpWorkload(name + "ip", spec.publicIpv4, spec.publicIpv6)] else [])
    + VolumeWorkloads(spec.volumes) + [VmMachine(name, network, ip, spec)]
  }

  // ---- What built workloads ask for, field by field ----

  /** A machine with these resources on this network. */
  predicate AsksForMachine(w: DeployWorkload, name: string, network: string, ip: string, flist: string, cpu: nat,
                           memory: nat, rootfs: nat, entrypoint: string, env: map<string, string>, corex: bool,
                           gpu: seq<string>)
  {
    && w.version == 0 && w.name == name && w.metadata == "" && w.description == "" && w.data.MachineData?
    && w.data.flist == flist && w.data.cpu == cpu && w.data.memory == memory && w.data.size == rootfs
    && w.data.entrypoint == entrypoint && w.data.env == env && w.data.corex == corex && w.data.gpu == gpu
    && |w.data.interfaces| == 1 && w.data.interfaces[0].network == network && w.data.interfaces[0].ip == ip
  }

  /** A volume of that size. */
  predicate AsksForVolume(w: DeployWorkload, v: VolumeMount) {
    && w.version == 0 && w.kind == "volume" && w.name == v.name && w.description == v.description && w.metadata == ""
    && w.data.VolumeData? && w.data.volumeSize == Some(v.sizeBytes)
  }

  /** A mount of that volume, or of what the specification mounts besides. */
  predicate Mounts(m: Mount, name: string, mountpoint: string) {
    m.name == name && m.mountpoint == mountpoint
  }

  /** A light machine's deployment: each volume, and last the machine, which mounts them by name and then what
      else the specification mounts. */
  predicate AsksLight(ws: seq<DeployWorkload>, name: string, network: string, ip: string, spec: VmLightSpec,
                      seed: seq<Byte>)
  {
    var n := |spec.volumes|;
    && |ws| == n + 1
    && (forall i :: 0 <= i < n ==> AsksForVolume(ws[i], spec.volumes[i]))
    && ws[n].kind == "zmachine-light"
    && AsksForMachine(ws[n], name, network, ip, spec.flist, spec.cpu, spec.memoryBytes, spec.rootfsSizeBytes,
                      spec.entrypoint, spec.env, spec.corex, spec.gpu)
    && var data := ws[n].data;
       && data.myceliumIp.Some? && data.myceliumIp.value.network == network && data.myceliumIp.value.seed == seed
       && data.publicIp == "" && !data.planetary
       && |data.mounts| == n + |spec.mounts|
       && (forall i :: 0 <= i < n ==> Mounts(data.mounts[i], ws[i].name, spec.volumes[i].mountpoint))
       && forall i :: 0 <= i < |spec.mounts| ==>
            Mounts(data.mounts[n + i], spec.mounts[i].name, spec.mounts[i].mountpoint)
  }

  /** A full machine's: first the address workload when one is wanted, which the machine names; the rest as
      for a light one. */
  predicate AsksFull(ws: seq<DeployWorkload>, name: string, network: string, ip: string, spec: VmSpec) {
    var n, address := |spec.volumes|, spec.publicIpv4 || spec.publicIpv6;
    var k := if address then 1 else 0;
    && |ws| == k + n + 1
    && (address ==> ws[0].kind == "ip" && ws[0].data == PublicIpData(spec.publicIpv4, spec.publicIpv6))
    && (forall i :: 0 <= i < n ==> AsksForVolume(ws[k + i], spec.volumes[i]))
    && ws[k + n].kind == "zmachine"
    && AsksForMachine(ws[k + n], name, network, ip, spec.flist, spec.cpu, spec.memoryBytes, spec.rootfsSizeBytes,
                      spec.entrypoint, spec.env, spec.corex, spec.gpu)
    && var data := ws[k + n].data;
       && data.publicIp == (if address then name + "ip" else "") && (address ==> ws[0].name == data.publicIp)
       && data.planetary == spec.planetary
       && (data.myceliumIp.Some? <==> spec.myceliumSeed.Some?)
       && (data.myceliumIp.Some? ==> && data.myceliumIp.value.network == network
                                     && data.myceliumIp.value.seed == spec.myceliumSeed.value)
       && |data.mounts| == n
       && forall i :: 0 <= i < n ==> Mounts(data.mounts[i], ws[k + i].name, spec.volumes[i].mountpoint)
  }

  lemma LightAsksForItsSpec(name: string, network: string, ip: string, spec: VmLightSpec, seed: seq<Byte>)
    ensures AsksLight(VmLightWorkloads(name, network, ip, spec, seed), name, network, ip, spec, seed)
  {
  }

  lemma FullAsksForItsSpec(name: string, network: string, ip: string, spec: VmSpec)
    ensures AsksFull(VmWorkloads(name, network, ip, spec), name, network, ip, spec)
  {
    MachineAsksForItsSpec(name, network, ip, spec);
    hide VmMachine, AsksForMachine;
  }

  lemma MachineAsksForItsSpec(name: string, network: string, ip: string, spec: VmSpec)
    ensures var w := VmMachine(name, network, ip, spec);
            && w.kind == "zmachine" && w.name == name
            && AsksForMachine(w, name, network, ip, spec.flist, spec.cpu, spec.memoryBytes, spec.rootfsSizeBytes,
                              spec.entrypoint, spec.env, spec.corex, spec.gpu)
            && w.data.MachineData?
            && w.data.publicIp == (if spec.publicIpv4 || spec.publicIpv6 then name + "ip" else "")
            && w.data.planetary == spec.planetary && w.data.mounts == VolumeMounts(spec.volumes)
            && w.data.myceliumIp == if spec.myceliumSeed.Some? then Some(MyceliumIp(network, spec.myceliumSeed.value))
                                    else None
  {
    hide VolumeMounts;
  }

  /** `build_vm_light`. */
  method BuildVmLight(name: string, network: string, ip: string, spec: VmLightSpec, seed: seq<Byte>)
    returns (ws: seq<DeployWorkload>)
    ensures ws == VmLightWorkloads(name, network, ip, spec, seed)
    ensures AsksLight(ws, name, network, ip, spec, seed)
    ensures PublicIpCount(ws) == 0
  {
    hide AsksLight;
    LightAsksForItsSpec(name, network, ip, spec, seed);
    ws := [];
    for i := 0 to |spec.volumes|
      invariant ws == VolumeWorkloads(spec.volumes)[..i]
    {
      ws := ws + [BuildVolumeWorkload(spec.volumes[i])];
    }
    VolumesChargeNothing(spec.volumes, [VmLightMachine(name, network, ip, spec, seed)]);
    ws := ws + [VmLightMachine(name, network, ip, spec, seed)];
  }

  /** `build_vm`. The count charged on chain is the number of address workloads. */
  method BuildVm(name: string, network: string, ip: string, spec: VmSpec) returns (ws: seq<DeployWorkload>)
    ensures ws == VmWorkloads(name, network, ip, spec)
    ensures AsksFull(ws, name, network, ip, spec)
    ensures PublicIpCount(ws) == if spec.publicIpv4 || spec.publicIpv6 then 1 else 0
  {
    FullAsksForItsSpec(name, network, ip, spec);
    MachineAsksForItsSpec(name, network, ip, spec);
    hide AsksFull, AsksForMachine, VmMachine, VolumeMounts, BuildVolumeWorkload, PublicIpCount;
    var publicIpName := PublicIpName(name, spec);
    ws := [];
    if publicIpName != "" {
      ws := ws + [PublicIpWorkload(publicIpName, spec.publicIpv4, spec.publicIpv6)];
    }
    ghost var first := ws;
    for i := 0 to |spec.volumes|
      invariant ws == first + VolumeWorkloads(spec.volumes)[..i]
    {
      ws := ws + [BuildVolumeWorkload(spec.volumes[i])];
    }
    var machine := VmMachine(name, network, ip, spec);
    OneCharges(machine);
    if first != [] {
      assert first == [first[0]];
      OneCharges(first[0]);
    } else {
      NoneCharges();
    }
    VolumesChargeNothing(spec.volumes, [machine]);
    PublicIpCountAppend(first, VolumeWorkloads(spec.volumes) + [machine]);
    ws := ws + [machine];
    assert ws == first + (VolumeWorkloads(spec.volumes) + [machine]);
  }

  // ---- The address count ----

  /** `public_ip_count`. */
  function PublicIpCount(ws: seq<DeployWorkload>): nat {
    if ws == [] then 0 else (if ws[0].kind == PUBLIC_IP_TYPE then 1 else 0) + PublicIpCount(ws[1..])
  }

  lemma OneCharges(w: DeployWorkload)
    ensures PublicIpCount([w]) == if w.kind == PUBLIC_IP_TYPE then 1 else 0
  {
    assert [w][1..] == [];
  }

  lemma NoneCharges()
    ensures PublicIpCount([]) == 0
  {
  }

  lemma {:induction false} PublicIpCountAppend(a: seq<DeployWorkload>, b: seq<DeployWorkload>)
    ensures PublicIpCount(a + b) == PublicIpCount(a) + PublicIpCount(b)
  {
    if a == [] {
      assert a + b == b;
    } else {
      PublicIpCountAppend(a[1..], b);
      assert a + b == [a[0]] + (a[1..] + b);
    }
  }

  lemma {:induction false} VolumesChargeNothing(volumes: seq<VolumeMount>, rest: seq<DeployWorkload>)
    ensures PublicIpCount(VolumeWorkloads(volumes) + rest) == PublicIpCount(rest)
  {
    if volumes == [] {
      assert VolumeWorkloads(volumes) + rest == rest;
    } else {
      VolumesChargeNothing(volumes[1..], rest);
      assert VolumeWorkloads(volumes) + rest
          == [BuildVolumeWorkload(volumes[0])] + (VolumeWorkloads(volumes[1..]) + rest);
    }
  }

  // ---- Whatever is built can be hashed ----

  predicate Hashable(w: DeployWorkload) {
    || (w.kind == NETWORK_LIGHT_TYPE && w.data.NetworkLightData?)
    || (w.kind == NETWORK_TYPE && w.data.NetworkData?)
    || ((w.kind == ZMACHINE_TYPE || w.kind == ZMACHINE_LIGHT_TYPE) && w.data.MachineData?)
    || (w.kind == VOLUME_TYPE && w.data.VolumeData? && w.data.volumeSize.Some?)
    || w.kind == PUBLIC_IP_TYPE
    || (w.kind == GATEWAY_NAME_PROXY_TYPE && w.data.GatewayNameData?)
    || (w.kind == GATEWAY_FQDN_PROXY_TYPE && w.data.GatewayFqdnData?)
  }

  lemma OneHashFails(out: string, w: DeployWorkload)
    ensures WorkloadChallenge(out, w).Ok? <==> Hashable(w)
  {
  }

  /** Hashing, and with it signing, fails exactly when some workload is not hashable. */
  lemma {:induction false} HashFailsOnlyOnBadWorkloads(out: string, ws: seq<DeployWorkload>)
    ensures WorkloadsChallenge(out, ws).Ok? <==> forall i :: 0 <= i < |ws| ==> Hashable(ws[i])
    decreases |ws|
  {
    hide WorkloadChallenge, Hashable;
    if ws != [] {
      var n := |ws| - 1;
      HashFailsOnlyOnBadWorkloads(out, ws[..n]);
      var before := WorkloadsChallenge(out, ws[..n]);
      if before.Ok? {
        OneHashFails(before.value, ws[n]);
        assert forall i :: 0 <= i < n ==> ws[i] == ws[..n][i];
      } else {
        assert exists i :: 0 <= i < n && !Hashable(ws[..n][i]);
        var i :| 0 <= i < n && !Hashable(ws[..n][i]);
        assert !Hashable(ws[i]);
      }
    }
  }

  lemma DeploymentHashesIff(c: Crypto, d: DeployDeployment)
    ensures HashHex(c, d).Ok? <==> forall i :: 0 <= i < |d.workloads| ==> Hashable(d.workloads[i])
  {
    var head := "" + Text.Decimal(d.version) + Text.Decimal(d.twinId) + d.metadata + d.description
                + Text.SignedDecimal(d.expiration);
    HashFailsOnlyOnBadWorkloads(head, d.workloads);
  }
}
