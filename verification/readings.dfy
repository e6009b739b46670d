/** What typed deployments write into workloads and read from them, field by field (src/workloads.rs). */
module Readings {
  import opened GridErrors
  import opened Text
  import opened Workloads

  // ---- Machines ----

  /** The workload holds these machine fields. */
  predicate Holds(w: Workload, flist: string, networkName: string, ip: string, cpus: nat, memoryMb: nat,
                  rootfsSizeMb: nat, mounts: seq<Mount>, envVars: map<string, string>, entrypoint: string, corex: bool)
  {
    && w.data.VmData?
    && var m := w.data.machine;
       && m.flist == flist && m.networkName == networkName && m.ip == ip && m.cpu == cpus && m.memoryMb == memoryMb
       && m.rootfsSizeMb == rootfsSizeMb && m.mounts == mounts && m.envVars == envVars
       && m.entrypoint == entrypoint && m.corex == corex
  }

  predicate HoldsVm(w: Workload, vm: VM) {
    && w.name == vm.name && w.description == vm.description
    && Holds(w, vm.flist, vm.networkName, vm.ip, vm.cpus, vm.memoryMb, vm.rootfsSizeMb, vm.mounts, vm.envVars,
             vm.entrypoint, vm.corex)
  }

  predicate HoldsVmLight(w: Workload, vm: VMLight) {
    && w.name == vm.name && w.description == vm.description
    && Holds(w, vm.flist, vm.networkName, vm.ip, vm.cpus, vm.memoryMb, vm.rootfsSizeMb, vm.mounts, vm.envVars,
             vm.entrypoint, vm.corex)
  }

  /** A machine's workloads hold it, after an address workload with the wanted versions when any is wanted. */
  lemma VmIsWritten(vm: VM)
    ensures var ws, address := VmWorkloads(vm), vm.publicIp || vm.publicIp6;
            && |ws| == (if address then 2 else 1)
            && ws[|ws| - 1].kind == "zmachine" && HoldsVm(ws[|ws| - 1], vm)
            && (address ==> && ws[0].kind == "ip" && ws[0].name == vm.name + "ip" && ws[0].data.PublicIpData?
                            && ws[0].data.v4 == vm.publicIp && ws[0].data.v6 == vm.publicIp6)
  {
  }

  lemma VmLightIsWritten(vm: VMLight)
    ensures VmLightWorkload(vm).kind == "zmachine-light" && HoldsVmLight(VmLightWorkload(vm), vm)
  {
  }

  /** Storage is written with its size, and a database with its mode, password and visibility. */
  lemma StorageIsWritten(d: Disk, v: Volume, z: ZDB)
    ensures var w := DiskWorkload(d);
            w.kind == "zmount" && w.name == d.name && w.description == d.description && SizeOf(w.data) == d.sizeGb
    ensures var w := VolumeWorkload(v);
            w.kind == "volume" && w.name == v.name && w.description == v.description && SizeOf(w.data) == v.sizeGb
    ensures var w := ZdbWorkload(z);
            && w.kind == "zdb" && w.name == z.name && w.description == z.description && w.data.ZdbData?
            && w.data.zdbSizeGb == z.sizeGb && w.data.mode == z.mode && w.data.password == z.password
            && w.data.public == z.public
  {
  }

  /** Gateways are written with their own name or domain, their backends, network and whether TLS passes through. */
  lemma GatewaysAreWritten(g: GatewayName, h: GatewayFqdn)
    ensures var w := GatewayNameWorkload(g);
            && w.kind == "gateway-name-proxy" && w.name == g.name && w.data.GatewayData? && w.data.target == g.name
            && w.data.tls == g.tls && w.data.backends == g.backends && w.data.network == g.network
    ensures var w := GatewayFqdnWorkload(h);
            && w.kind == "gateway-fqdn-proxy" && w.name == h.name && w.data.GatewayData? && w.data.target == h.fqdn
            && w.data.tls == h.tls && w.data.backends == h.backends && w.data.network == h.network
  {
  }

  // ---- Results ----

  /** `w` is the first workload of that name. */
  ghost predicate FirstNamed(ws: seq<Workload>, name: string, w: Workload) {
    exists i: nat :: FirstAt(ws, name, w, i)
  }

  predicate FirstAt(ws: seq<Workload>, name: string, w: Workload, i: nat) {
    i < |ws| && ws[i] == w && w.name == name && forall j :: 0 <= j < i ==> ws[j].name != name
  }

  lemma LaterIsFirst(ws: seq<Workload>, name: string, w: Workload, i: nat)
    requires ws != [] && ws[0].name != name
    ensures FirstAt(ws, name, w, i + 1) <==> FirstAt(ws[1..], name, w, i)
  {
    assert forall j :: 0 <= j < |ws| - 1 ==> ws[1..][j] == ws[j + 1];
    if FirstAt(ws[1..], name, w, i) {
      forall j | 0 <= j < i + 1 ensures ws[j].name != name { if j > 0 { assert ws[j] == ws[1..][j - 1]; } }
    }
  }

  lemma {:induction false} FindsFirst(ws: seq<Workload>, name: string, w: Workload)
    ensures FindWorkload(ws, name) == Some(w) <==> FirstNamed(ws, name, w)
  {
    if ws != [] && ws[0].name != name {
      FindsFirst(ws[1..], name, w);
      hide FirstAt;
      if i: nat :| FirstAt(ws, name, w, i) {
        assert i > 0 by { NotFirst(ws, name, w, i); }
        LaterIsFirst(ws, name, w, i - 1);
      }
      if i: nat :| FirstAt(ws[1..], name, w, i) { LaterIsFirst(ws, name, w, i); }
    } else if ws != [] {
      assert ws[0] == w ==> FirstAt(ws, name, w, 0);
    }
  }

  lemma NotFirst(ws: seq<Workload>, name: string, w: Workload, i: nat)
    requires FirstAt(ws, name, w, i) && ws[0].name != name
    ensures i > 0
  {
  }

  const MEMBERS := ["ip", "addr", "ip_address", "address"]

  /** A text, or the first of the four members an object has, when that is a text. */
  ghost predicate Raw(f: ResultField, text: string) {
    || f == TextField(text)
    || (f.ObjectField? && exists i :: 0 <= i < 4 && MEMBERS[i] in f.members && f.members[MEMBERS[i]] == Some(text)
                                      && forall j :: 0 <= j < i ==> MEMBERS[j] !in f.members)
  }

  /** The field gives that address: its trimmed text is one. */
  ghost predicate Gives(o: Oracles, data: map<string, ResultField>, key: string, address: string) {
    key in data && exists text :: Raw(data[key], text) && Trim(text) != "" && o.address(Trim(text)) == Some(address)
  }

  ghost predicate GivesNone(o: Oracles, data: map<string, ResultField>, key: string) {
    forall address :: !Gives(o, data, key, address)
  }

  lemma RawIs(f: ResultField)
    ensures forall text :: AddressText(f) == Some(text) <==> Raw(f, text)
  {
    assert MEMBERS[0] == "ip" && MEMBERS[1] == "addr" && MEMBERS[2] == "ip_address" && MEMBERS[3] == "address";
    if f.ObjectField? {
      var m := f.members;
      var i := if "ip" in m then 0 else if "addr" in m then 1 else if "ip_address" in m then 2 else 3;
      forall text ensures AddressText(f) == Some(text) <==> Raw(f, text) {
        assert forall j :: 0 <= j < i ==> MEMBERS[j] !in m;
        if AddressText(f) == Some(text) { assert MEMBERS[i] in m && m[MEMBERS[i]] == Some(text); }
      }
    }
  }

  lemma FieldGives(o: Oracles, r: ResultData, key: string)
    ensures forall address :: AddressField(o, r, key) == Some(address) <==> Gives(o, r.data, key, address)
    ensures AddressField(o, r, key).None? <==> GivesNone(o, r.data, key)
  {
    if key in r.data {
      RawIs(r.data[key]);
      hide Raw, AddressText;
    }
    if AddressField(o, r, key).Some? { assert Gives(o, r.data, key, AddressField(o, r, key).value); }
  }

  predicate IsUp(w: Workload) {
    w.result.state == "ok" || w.result.state == "paused"
  }

  /** The address workload of the machine is up and gives that address of the first kind, or of the second: from
      `ipv6`, or from `ip6` when that gives none. */
  ghost predicate Gives4(o: Oracles, ws: seq<Workload>, name: string, address: string) {
    exists w :: FirstNamed(ws, name + "ip", w) && IsUp(w) && Gives(o, w.result.data, "ip", address)
  }

  ghost predicate Gives6(o: Oracles, ws: seq<Workload>, name: string, address: string) {
    exists w :: && FirstNamed(ws, name + "ip", w) && IsUp(w)
                && (|| Gives(o, w.result.data, "ipv6", address)
                    || (GivesNone(o, w.result.data, "ipv6") && Gives(o, w.result.data, "ip6", address)))
  }

  lemma AddressesAreGiven(o: Oracles, ws: seq<Workload>, name: string)
    ensures forall a :: ResolvePublicIps(o, ws, name).0 == Some(a) <==> Gives4(o, ws, name, a)
    ensures forall a :: ResolvePublicIps(o, ws, name).1 == Some(a) <==> Gives6(o, ws, name, a)
  {
    forall w ensures FindWorkload(ws, name + "ip") == Some(w) <==> FirstNamed(ws, name + "ip", w) {
      FindsFirst(ws, name + "ip", w);
    }
    hide FirstNamed, FindWorkload;
    if w :| FirstNamed(ws, name + "ip", w) {
      FieldGives(o, w.result, "ip");
      FieldGives(o, w.result, "ipv6");
      FieldGives(o, w.result, "ip6");
      hide AddressField, Gives, GivesNone;
    }
  }

  /** Reading gives the machine its workload holds; it has a public address of a kind exactly when its address
      workload is up and gives one, and a planetary one when its own result names one. */
  lemma VmIsRead(o: Oracles, z: ZosDeployment, nodeId: nat, w: Workload)
    requires ReadVm(o, z, nodeId, w).Ok?
    ensures var vm := ReadVm(o, z, nodeId, w).value;
            && HoldsVm(w, vm) && vm.nodeId == nodeId && o.checksum(vm.flist) == Ok(vm.flistChecksum)
            && (if vm.publicIp then Gives4(o, z.workloads, w.name, vm.computedIp) else vm.computedIp == "")
            && (if vm.publicIp6 then Gives6(o, z.workloads, w.name, vm.computedIp6) else vm.computedIp6 == "")
            && (forall a :: Gives4(o, z.workloads, w.name, a) ==> vm.publicIp && a == vm.computedIp)
            && (forall a :: Gives6(o, z.workloads, w.name, a) ==> vm.publicIp6 && a == vm.computedIp6)
            && (vm.planetary <==> vm.planetaryIp != "")
  {
    AddressesAreGiven(o, z.workloads, w.name);
    var (ip, ip6) := ResolvePublicIps(o, z.workloads, w.name);
    assert ip.None? ==> ip.GetOr("") == "";
    assert ip6.None? ==> ip6.GetOr("") == "";
    hide Gives4, Gives6, ResolvePublicIps, ResultText;
  }

  /** The texts of a result, when all that are there are texts; otherwise none of them. */
  predicate ResultGives(r: ResultData, fields: seq<string>, key: string, text: string) {
    if (forall k :: k in fields && k in r.data ==> r.data[k].TextField?) && key in r.data
    then r.data[key] == TextField(text) else text == ""
  }

  lemma VmResultIsRead(o: Oracles, z: ZosDeployment, nodeId: nat, w: Workload)
    requires ReadVm(o, z, nodeId, w).Ok?
    ensures var vm, fields := ReadVm(o, z, nodeId, w).value, ["planetary_ip", "ygg_ip", "mycelium_ip", "console_url"];
            && ResultGives(w.result, fields, "mycelium_ip", vm.myceliumIp)
            && ResultGives(w.result, fields, "console_url", vm.consoleUrl)
            && (|| (vm.planetaryIp != "" && ResultGives(w.result, fields, "planetary_ip", vm.planetaryIp))
                || (ResultGives(w.result, fields, "planetary_ip", "")
                    && ResultGives(w.result, fields, "ygg_ip", vm.planetaryIp)))
  {
    var fields := VM_RESULT;
    assert fields[0] in fields && fields[1] in fields && fields[2] in fields && fields[3] in fields;
    TextIs(w.result, fields, "planetary_ip");
    TextIs(w.result, fields, "ygg_ip");
    TextIs(w.result, fields, "mycelium_ip");
    TextIs(w.result, fields, "console_url");
    hide ResultText, ResultGives, ResolvePublicIps;
  }

  lemma TextIs(r: ResultData, fields: seq<string>, key: string)
    requires key in fields
    ensures ResultGives(r, fields, key, ResultText(r, fields, key))
  {
  }

  lemma VmLightIsRead(o: Oracles, nodeId: nat, w: Workload)
    requires ReadVmLight(o, nodeId, w).Ok?
    ensures var vm, fields := ReadVmLight(o, nodeId, w).value, ["mycelium_ip", "console_url"];
            && HoldsVmLight(w, vm) && vm.nodeId == nodeId && o.checksum(vm.flist) == Ok(vm.flistChecksum)
            && ResultGives(w.result, fields, "mycelium_ip", vm.myceliumIp)
            && ResultGives(w.result, fields, "console_url", vm.consoleUrl)
  {
    var fields := VM_LIGHT_RESULT;
    assert fields[0] in fields && fields[1] in fields;
    TextIs(w.result, fields, "mycelium_ip");
    TextIs(w.result, fields, "console_url");
    hide ResultText, ResultGives;
  }
}
