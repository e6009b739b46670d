/** Typed deployments of src/workloads.rs, their flattening into workloads, and the way back.
    JSON values are typed; flist checksums and address parsing are oracles. */
module Workloads {
  import opened GridErrors
  import opened Text

  const ZMOUNT_TYPE := "zmount"
  const VOLUME_TYPE := "volume"
  const ZDB_TYPE := "zdb"
  const ZMACHINE_TYPE := "zmachine"
  const ZMACHINE_LIGHT_TYPE := "zmachine-light"
  const QUANTUM_SAFE_FS_TYPE := "qsfs"
  const PUBLIC_IP_TYPE := "ip"
  const GATEWAY_NAME_PROXY_TYPE := "gateway-name-proxy"
  const GATEWAY_FQDN_PROXY_TYPE := "gateway-fqdn-proxy"

  datatype Mount = Mount(name: string, mountPoint: string)
  datatype Disk = Disk(name: string, sizeGb: nat, description: string)
  datatype Volume = Volume(name: string, sizeGb: nat, description: string)
  datatype ZDB = ZDB(name: string, password: string, public: bool, sizeGb: nat, description: string, mode: string,
                     ips: seq<string>, port: nat, namespace: string)
  /** `groups` is a JSON value, carried as it is. */
  datatype QSFS = QSFS(name: string, description: string, cache: int, minimalShards: nat, expectedShards: nat,
                       redundantGroups: nat, redundantNodes: nat, maxZdbDataDirSize: nat, encryptionAlgorithm: string,
                       encryptionKey: string, compressionAlgorithm: string, metadata: string, groups: string,
                       metricsEndpoint: string)
  datatype VM = VM(name: string, nodeId: nat, networkName: string, description: string, flist: string,
                   flistChecksum: string, entrypoint: string, publicIp: bool, publicIp6: bool, planetary: bool,
                   corex: bool, ip: string, myceliumIpSeed: seq<nat>, cpus: nat, memoryMb: nat, rootfsSizeMb: nat,
                   mounts: seq<Mount>, zlogs: seq<string>, envVars: map<string, string>, computedIp: string,
                   computedIp6: string, planetaryIp: string, myceliumIp: string, consoleUrl: string)
  datatype VMLight = VMLight(name: string, nodeId: nat, networkName: string, description: string, flist: string,
                             flistChecksum: string, entrypoint: string, corex: bool, ip: string,
                             myceliumIpSeed: seq<nat>, cpus: nat, memoryMb: nat, rootfsSizeMb: nat, mounts: seq<Mount>,
                             zlogs: seq<string>, envVars: map<string, string>, myceliumIp: string, consoleUrl: string,
                             computedIp: string, computedIp6: string)
  datatype GatewayName = GatewayName(name: string, backends: seq<string>, tls: bool, network: string,
                                     description: string)
  datatype GatewayFqdn = GatewayFqdn(name: string, fqdn: string, backends: seq<string>, tls: bool, network: string,
                                     description: string)

  datatype MachineData = MachineData(flist: string, networkName: string, ip: string, cpu: nat, memoryMb: nat,
                                     rootfsSizeMb: nat, mounts: seq<Mount>, envVars: map<string, string>,
                                     entrypoint: string, corex: bool)
  datatype Data =
    | SizeData(sizeGb: nat)
    | ZdbData(zdbSizeGb: nat, mode: string, password: string, public: bool)
    | VmData(machine: MachineData)
    | QsfsData(qsfs: QSFS)
    | PublicIpData(v4: bool, v6: bool)
    | GatewayData(target: string, tls: bool, backends: seq<string>, network: string)
    | NoData

  /** A field of a workload's result: text, an object whose members may be text, or anything else. */
  datatype ResultField = TextField(text: string) | ObjectField(members: map<string, Option<string>>) | OtherField

  datatype ResultData = ResultData(created: int, state: string, error: string, data: map<string, ResultField>)
  const DEFAULT_RESULT := ResultData(0, "init", "", map[])

  datatype Workload = Workload(version: nat, name: string, kind: string, data: Data, metadata: string,
                               description: string, result: ResultData)

  /** `DeploymentData`, the metadata of a deployment; anything else does not parse. */
  datatype Metadata = Metadata(version: int, kind: string, name: string, projectName: string) | Unparsable(text: string)

  datatype ZosDeployment = ZosDeployment(version: nat, twinId: nat, contractId: nat, metadata: Metadata,
                                         description: string, expiration: int, workloads: seq<Workload>)

  datatype Deployment = Deployment(
    name: string, nodeId: nat, solutionType: string, solutionProvider: Option<nat>, networkName: string,
    disks: seq<Disk>, zdbs: seq<ZDB>, vms: seq<VM>, vmsLight: seq<VMLight>, qsfs: seq<QSFS>, volumes: seq<Volume>,
    gatewayNames: seq<GatewayName>, gatewayFqdns: seq<GatewayFqdn>, nodeDeploymentId: map<nat, nat>,
    contractId: nat, ipRange: string)

  // ---- Flattening ----

  function Plain(name: string, kind: string, data: Data, description: string): Workload {
    Workload(0, name, kind, data, "", description, DEFAULT_RESULT)
  }

  function DiskWorkload(d: Disk): Workload { Plain(d.name, ZMOUNT_TYPE, SizeData(d.sizeGb), d.description) }
  function VolumeWorkload(v: Volume): Workload { Plain(v.name, VOLUME_TYPE, SizeData(v.sizeGb), v.description) }
  function ZdbWorkload(z: ZDB): Workload {
    Plain(z.name, ZDB_TYPE, ZdbData(z.sizeGb, z.mode, z.password, z.public), z.description)
  }
  function QsfsWorkload(q: QSFS): Workload { Plain(q.name, QUANTUM_SAFE_FS_TYPE, QsfsData(q), q.description) }
  function PublicIpWorkload(name: string, v4: bool, v6: bool): Workload {
    Plain(name, PUBLIC_IP_TYPE, PublicIpData(v4, v6), "")
  }
  function VmWorkload(vm: VM): Workload {
    Plain(vm.name, ZMACHINE_TYPE,
          VmData(MachineData(vm.flist, vm.networkName, vm.ip, vm.cpus, vm.memoryMb, vm.rootfsSizeMb, vm.mounts,
                             vm.envVars, vm.entrypoint, vm.corex)), vm.description)
  }
  function VmLightWorkload(vm: VMLight): Workload {
    Plain(vm.name, ZMACHINE_LIGHT_TYPE,
          VmData(MachineData(vm.flist, vm.networkName, vm.ip, vm.cpus, vm.memoryMb, vm.rootfsSizeMb, vm.mounts,
                             vm.envVars, vm.entrypoint, vm.corex)), vm.description)
  }
  function GatewayNameWorkload(g: GatewayName): Workload {
    Plain(g.name, GATEWAY_NAME_PROXY_TYPE, GatewayData(g.name, g.tls, g.backends, g.network),
          if g.description == "" then "gateway-name-proxy" else g.description)
  }
  function GatewayFqdnWorkload(g: GatewayFqdn): Workload {
    Plain(g.name, GATEWAY_FQDN_PROXY_TYPE, GatewayData(g.fqdn, g.tls, g.backends, g.network),
          if g.description == "" then "gateway-fqdn-proxy" else g.description)
  }

  function Map<S, T>(xs: seq<S>, f: S -> T): (ys: seq<T>)
    ensures |ys| == |xs| && forall i :: 0 <= i < |xs| ==> ys[i] == f(xs[i])
  {
    seq(|xs|, i requires 0 <= i < |xs| => f(xs[i]))
  }

  /** `VM::zos_workload`: the public address, when one is wanted, comes before the machine. */
  function VmWorkloads(vm: VM): seq<Workload> {
    (if vm.publicIp || vm.publicIp6 then [PublicIpWorkload(vm.name + "ip", vm.publicIp, vm.publicIp6)] else [])
    + [VmWorkload(vm)]
  }

  function AllVmWorkloads(vms: seq<VM>): seq<Workload> {
    if vms == [] then [] else VmWorkloads(vms[0]) + AllVmWorkloads(vms[1..])
  }

  /** The workload list of `zos_deployment`, kind by kind. */
  function Flatten(d: Deployment): seq<Workload> {
    Map(d.disks, DiskWorkload)
    + (Map(d.volumes, VolumeWorkload)
    + (Map(d.zdbs, ZdbWorkload)
    + (AllVmWorkloads(d.vms)
    + (Map(d.vmsLight, VmLightWorkload)
    + (Map(d.qsfs, QsfsWorkload)
    + (Map(d.gatewayNames, GatewayNameWorkload)
    + Map(d.gatewayFqdns, GatewayFqdnWorkload)))))))
  }

  function GenerateMetadata(d: Deployment): Metadata {
    Metadata(3, if d.vmsLight == [] then "vm" else "vm-light", d.name,
             if d.solutionType == "" then d.name else d.solutionType)
  }

  function ToZos(d: Deployment, twinId: nat): ZosDeployment {
    ZosDeployment(0, twinId, d.contractId, GenerateMetadata(d), "", 0, Flatten(d))
  }

  // ---- Reading back ----

  /** What reading asks the outside: the checksum behind an flist, and whether a text is an address. */
  datatype Oracles = Oracles(checksum: string -> Result<string>, address: string -> Option<string>)

  function FlistChecksum(o: Oracles, flist: string): Result<string> {
    if Trim(flist) == "" then Err(Validation("flist is empty")) else o.checksum(flist)
  }

  function SizeOf(data: Data): nat {
    match data
    case SizeData(size) => size
    case ZdbData(size, _, _, _) => size
    case _ => 0
  }

  function ReadDisk(w: Workload): Disk { Disk(w.name, SizeOf(w.data), w.description) }
  function ReadVolume(w: Workload): Volume { Volume(w.name, SizeOf(w.data), w.description) }
  function ReadZdb(w: Workload): ZDB {
    ZDB(w.name, "", w.data.ZdbData? && w.data.public, SizeOf(w.data), w.description,
        if w.data.ZdbData? then w.data.mode else "user", [], 0, "")
  }

  function ReadQsfs(w: Workload): Result<QSFS> {
    if w.data.QsfsData? then Ok(w.data.qsfs.(name := w.name)) else Err(Codec("qsfs"))
  }

  function FindWorkload(ws: seq<Workload>, name: string): Option<Workload> {
    if ws == [] then None else if ws[0].name == name then Some(ws[0]) else FindWorkload(ws[1..], name)
  }

  const VM_RESULT := ["planetary_ip", "ygg_ip", "mycelium_ip", "console_url"]
  const VM_LIGHT_RESULT := ["mycelium_ip", "console_url"]

  /** A result is read as a whole: when one of the fields asked for is no text, all read as empty. */
  function ResultText(r: ResultData, fields: seq<string>, key: string): string {
    if key in r.data && forall k :: k in fields && k in r.data ==> r.data[k].TextField? then
      if r.data[key].TextField? then r.data[key].text else ""
    else ""
  }

  /** `extract_ip`: a text, or the first of four members of an object. */
  function AddressText(f: ResultField): Option<string> {
    match f
    case TextField(text) => Some(text)
    case ObjectField(m) =>
      if "ip" in m then m["ip"]
      else if "addr" in m then m["addr"]
      else if "ip_address" in m then m["ip_address"]
      else if "address" in m then m["address"]
      else None
    case OtherField => None
  }

  function AddressField(o: Oracles, r: ResultData, key: string): Option<string> {
    if key !in r.data then None
    else
      var text := AddressText(r.data[key]);
      if text.Some? && Trim(text.value) != "" then o.address(Trim(text.value)) else None
  }

  /** `resolve_public_ips`: the addresses of the machine's `ip` workload, once that is settled. */
  function ResolvePublicIps(o: Oracles, ws: seq<Workload>, name: string): (Option<string>, Option<string>) {
    match FindWorkload(ws, name + "ip")
    case None => (None, None)
    case Some(w) =>
      if w.result.state != "ok" && w.result.state != "paused" then (None, None)
      else
        var v6 := AddressField(o, w.result, "ipv6");
        (AddressField(o, w.result, "ip"), if v6.Some? then v6 else AddressField(o, w.result, "ip6"))
  }

  function ReadVm(o: Oracles, z: ZosDeployment, nodeId: nat, w: Workload): Result<VM> {
    if !w.data.VmData? then Err(Codec("machine"))
    else
      var m, r := w.data.machine, w.result;
      var checksum :- FlistChecksum(o, m.flist);
      var (ip, ip6) := ResolvePublicIps(o, z.workloads, w.name);
      var planetary, ygg := ResultText(r, VM_RESULT, "planetary_ip"), ResultText(r, VM_RESULT, "ygg_ip");
      Ok(VM(w.name, nodeId, m.networkName, w.description, m.flist, checksum, m.entrypoint, ip.Some?, ip6.Some?,
            planetary != "" || ygg != "", m.corex, m.ip, [], m.cpu, m.memoryMb, m.rootfsSizeMb, m.mounts, [], m.envVars,
            ip.GetOr(""), ip6.GetOr(""), if planetary != "" then planetary else ygg,
            ResultText(r, VM_RESULT, "mycelium_ip"), ResultText(r, VM_RESULT, "console_url")))
  }

  function ReadVmLight(o: Oracles, nodeId: nat, w: Workload): Result<VMLight> {
    if !w.data.VmData? then Err(Codec("machine"))
    else
      var m := w.data.machine;
      var checksum :- FlistChecksum(o, m.flist);
      Ok(VMLight(w.name, nodeId, m.networkName, w.description, m.flist, checksum, m.entrypoint, m.corex, m.ip, [],
                 m.cpu, m.memoryMb, m.rootfsSizeMb, m.mounts, [], m.envVars,
                 ResultText(w.result, VM_LIGHT_RESULT, "mycelium_ip"),
                 ResultText(w.result, VM_LIGHT_RESULT, "console_url"), "", ""))
  }

  // ---- Specification of reading: one list per kind ----

  function Collect<T>(ws: seq<Workload>, f: Workload -> Option<T>): seq<T>
    decreases |ws|
  {
    if ws == [] then []
    else
      var last := f(ws[|ws| - 1]);
      Collect(ws[..|ws| - 1], f) + (if last.Some? then [last.value] else [])
  }

  function AsDisk(w: Workload): Option<Disk> { if w.kind == ZMOUNT_TYPE then Some(ReadDisk(w)) else None }
  function AsVolume(w: Workload): Option<Volume> { if w.kind == VOLUME_TYPE then Some(ReadVolume(w)) else None }
  function AsZdb(w: Workload): Option<ZDB> { if w.kind == ZDB_TYPE then Some(ReadZdb(w)) else None }
  function AsQsfs(w: Workload): Option<QSFS> {
    if w.kind == QUANTUM_SAFE_FS_TYPE && ReadQsfs(w).Ok? then Some(ReadQsfs(w).value) else None
  }
  function AsVm(o: Oracles, z: ZosDeployment, nodeId: nat): Workload -> Option<VM> {
    (w: Workload) =>
      if w.kind == ZMACHINE_TYPE && ReadVm(o, z, nodeId, w).Ok? then Some(ReadVm(o, z, nodeId, w).value) else None
  }
  function AsVmLight(o: Oracles, nodeId: nat): Workload -> Option<VMLight> {
    (w: Workload) =>
      if w.kind == ZMACHINE_LIGHT_TYPE && ReadVmLight(o, nodeId, w).Ok? then Some(ReadVmLight(o, nodeId, w).value)
      else None
  }
  function AsNetworkName(w: Workload): Option<string> {
    if (w.kind == ZMACHINE_TYPE || w.kind == ZMACHINE_LIGHT_TYPE) && w.data.VmData? then
      Some(w.data.machine.networkName)
    else None
  }

  function LastOr(names: seq<string>, default: string): string {
    if names == [] then default else names[|names| - 1]
  }

  predicate Readable(o: Oracles, w: Workload) {
    && (w.kind == ZMACHINE_TYPE || w.kind == ZMACHINE_LIGHT_TYPE ==>
          w.data.VmData? && FlistChecksum(o, w.data.machine.flist).Ok?)
    && (w.kind == QUANTUM_SAFE_FS_TYPE ==> w.data.QsfsData?)
  }

  function ReadLists(o: Oracles, z: ZosDeployment, nodeId: nat, ws: seq<Workload>): Deployment
    requires z.metadata.Metadata?
  {
    Deployment(z.metadata.name, nodeId, z.metadata.projectName, None, LastOr(Collect(ws, AsNetworkName), ""),
               Collect(ws, AsDisk), Collect(ws, AsZdb), Collect(ws, AsVm(o, z, nodeId)),
               Collect(ws, AsVmLight(o, nodeId)),
               Collect(ws, AsQsfs), Collect(ws, AsVolume), [], [], map[nodeId := z.contractId], z.contractId, "")
  }

  function EmptyDeployment(z: ZosDeployment, nodeId: nat): Deployment
    requires z.metadata.Metadata?
  {
    Deployment(z.metadata.name, nodeId, z.metadata.projectName, None, "", [], [], [], [], [], [], [], [],
               map[nodeId := z.contractId], z.contractId, "")
  }

  /** `new_deployment_from_zos_deployment`. */
  method FromZos(o: Oracles, z: ZosDeployment, nodeId: nat) returns (r: Result<Deployment>)
    ensures r.Ok? <==> z.metadata.Metadata? && forall w :: w in z.workloads ==> Readable(o, w)
    ensures r.Ok? ==> r.value == ReadLists(o, z, nodeId, z.workloads)
  {
    if z.metadata.Unparsable? { return Err(Codec("metadata")); }
    hide Readable, ReadLists, Extended, EmptyDeployment;
    ReadNothing(o, z, nodeId);
    var d := EmptyDeployment(z, nodeId);
    for i := 0 to |z.workloads|
      invariant d == ReadLists(o, z, nodeId, z.workloads[..i])
      invariant forall j :: 0 <= j < i ==> Readable(o, z.workloads[j])
    {
      ReadNext(o, z, nodeId, i);
      var next := ReadInto(o, z, nodeId, d, z.workloads[i]);
      if next.Err? { return Err(next.error); }
      d := next.value;
    }
    assert z.workloads[..|z.workloads|] == z.workloads;
    return Ok(d);
  }

  /** The loop's body: one workload goes to the list of its kind; other kinds are passed over. */
  method ReadInto(o: Oracles, z: ZosDeployment, nodeId: nat, d: Deployment, w: Workload) returns (r: Result<Deployment>)
    ensures r.Ok? <==> Readable(o, w)
    ensures r.Ok? ==> r.value == Extended(o, z, nodeId, d, w)
  {
    hide ReadVm, ReadVmLight, ReadQsfs, ReadDisk, ReadVolume, ReadZdb, Readable;
    ReadableIff(o, z, nodeId, w);
    if w.kind == ZMOUNT_TYPE {
      return Ok(d.(disks := d.disks + [ReadDisk(w)]));
    } else if w.kind == VOLUME_TYPE {
      return Ok(d.(volumes := d.volumes + [ReadVolume(w)]));
    } else if w.kind == ZDB_TYPE {
      return Ok(d.(zdbs := d.zdbs + [ReadZdb(w)]));
    } else if w.kind == ZMACHINE_TYPE {
      var vm := ReadVm(o, z, nodeId, w);
      if vm.Err? { return Err(vm.error); }
      return Ok(d.(vms := d.vms + [vm.value], networkName := vm.value.networkName));
    } else if w.kind == ZMACHINE_LIGHT_TYPE {
      var vm := ReadVmLight(o, nodeId, w);
      if vm.Err? { return Err(vm.error); }
      return Ok(d.(vmsLight := d.vmsLight + [vm.value], networkName := vm.value.networkName));
    } else if w.kind == QUANTUM_SAFE_FS_TYPE {
      var q := ReadQsfs(w);
      if q.Err? { return Err(q.error); }
      return Ok(d.(qsfs := d.qsfs + [q.value]));
    }
    return Ok(d);
  }

  lemma ReadableIff(o: Oracles, z: ZosDeployment, nodeId: nat, w: Workload)
    ensures w.kind == ZMACHINE_TYPE ==> (ReadVm(o, z, nodeId, w).Ok? <==> Readable(o, w))
    ensures w.kind == ZMACHINE_LIGHT_TYPE ==> (ReadVmLight(o, nodeId, w).Ok? <==> Readable(o, w))
    ensures w.kind == QUANTUM_SAFE_FS_TYPE ==> (ReadQsfs(w).Ok? <==> Readable(o, w))
    ensures w.kind !in [ZMACHINE_TYPE, ZMACHINE_LIGHT_TYPE, QUANTUM_SAFE_FS_TYPE] ==> Readable(o, w)
  {
  }

  lemma ReadNext(o: Oracles, z: ZosDeployment, nodeId: nat, i: nat)
    requires z.metadata.Metadata? && i < |z.workloads|
    ensures z.workloads[i] in z.workloads
    ensures Readable(o, z.workloads[i]) ==>
              ReadLists(o, z, nodeId, z.workloads[..i + 1])
              == Extended(o, z, nodeId, ReadLists(o, z, nodeId, z.workloads[..i]), z.workloads[i])
  {
    hide Readable, ReadLists, Extended;
    var w := z.workloads[i];
    if Readable(o, w) { ReadListsPush(o, z, nodeId, z.workloads[..i], w); }
    assert z.workloads[..i + 1] == z.workloads[..i] + [w];
  }

  lemma ReadNothing(o: Oracles, z: ZosDeployment, nodeId: nat)
    requires z.metadata.Metadata?
    ensures ReadLists(o, z, nodeId, []) == EmptyDeployment(z, nodeId)
  {
  }

  lemma CollectPush<T>(ws: seq<Workload>, w: Workload, f: Workload -> Option<T>)
    ensures Collect(ws + [w], f) == Collect(ws, f) + if f(w).Some? then [f(w).value] else []
  {
    assert (ws + [w])[..|ws|] == ws;
  }

  /** One more readable workload changes one list, and the network name when it is a machine. */
  function Extended(o: Oracles, z: ZosDeployment, nodeId: nat, d: Deployment, w: Workload): Deployment {
    if w.kind == ZMOUNT_TYPE then d.(disks := d.disks + [ReadDisk(w)])
    else if w.kind == VOLUME_TYPE then d.(volumes := d.volumes + [ReadVolume(w)])
    else if w.kind == ZDB_TYPE then d.(zdbs := d.zdbs + [ReadZdb(w)])
    else if w.kind == ZMACHINE_TYPE && ReadVm(o, z, nodeId, w).Ok? then
      var vm := ReadVm(o, z, nodeId, w).value;
      d.(vms := d.vms + [vm], networkName := vm.networkName)
    else if w.kind == ZMACHINE_LIGHT_TYPE && ReadVmLight(o, nodeId, w).Ok? then
      var vm := ReadVmLight(o, nodeId, w).value;
      d.(vmsLight := d.vmsLight + [vm], networkName := vm.networkName)
    else if w.kind == QUANTUM_SAFE_FS_TYPE && ReadQsfs(w).Ok? then d.(qsfs := d.qsfs + [ReadQsfs(w).value])
    else d
  }

  lemma NameIsTheMachines(o: Oracles, z: ZosDeployment, nodeId: nat, w: Workload)
    requires Readable(o, w)
    ensures var vm, light := ReadVm(o, z, nodeId, w), ReadVmLight(o, nodeId, w);
            AsNetworkName(w) == if w.kind == ZMACHINE_TYPE && vm.Ok? then Some(vm.value.networkName)
                                else if w.kind == ZMACHINE_LIGHT_TYPE && light.Ok? then Some(light.value.networkName)
                                else None
  {
  }

  lemma ReadListsPush(o: Oracles, z: ZosDeployment, nodeId: nat, ws: seq<Workload>, w: Workload)
    requires z.metadata.Metadata? && Readable(o, w)
    ensures ReadLists(o, z, nodeId, ws + [w]) == Extended(o, z, nodeId, ReadLists(o, z, nodeId, ws), w)
  {
    NameIsTheMachines(o, z, nodeId, w);
    hide Collect, Readable, ReadVm, ReadVmLight, ReadQsfs, ReadDisk, ReadVolume, ReadZdb, AsNetworkName;
    CollectPush(ws, w, AsDisk);
    CollectPush(ws, w, AsVolume);
    CollectPush(ws, w, AsZdb);
    CollectPush(ws, w, AsVm(o, z, nodeId));
    CollectPush(ws, w, AsVmLight(o, nodeId));
    CollectPush(ws, w, AsQsfs);
    CollectPush(ws, w, AsNetworkName);
  }
}
