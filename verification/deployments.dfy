/** Live deployments of src/grid_client/deployment.rs: the workload builders, the challenge that is
    hashed, and signing. JSON payloads are typed; MD5 and the signature scheme are parameters. */
module Deployments {
  import opened GridErrors
  import opened Text
  import opened HexCodec
  import opened KeyOrder

  const NETWORK_TYPE := "network"
  const NETWORK_LIGHT_TYPE := "network-light"
  const ZMACHINE_TYPE := "zmachine"
  const ZMACHINE_LIGHT_TYPE := "zmachine-light"
  const VOLUME_TYPE := "volume"
  const PUBLIC_IP_TYPE := "ip"
  const GATEWAY_NAME_PROXY_TYPE := "gateway-name-proxy"
  const GATEWAY_FQDN_PROXY_TYPE := "gateway-fqdn-proxy"

  /** An MD5 digest is sixteen bytes. */
  type Digest = d: seq<Byte> | |d| == 16 witness seq(16, _ => 0)

  datatype Crypto = Crypto(md5: string -> Digest, sign: seq<Byte> -> seq<Byte>)

  datatype Mycelium = Mycelium(key: seq<Byte>, peers: seq<string>)
  datatype MyceliumIp = MyceliumIp(network: string, seed: seq<Byte>)
  datatype Interface = Interface(network: string, ip: string)
  datatype Mount = Mount(name: string, mountpoint: string)

  datatype WorkloadData =
    | NetworkLightData(subnet: string, lightMycelium: Option<Mycelium>)
    | NetworkData(ipRange: string, netSubnet: string, wireguardKey: string, wireguardPort: nat,
                  wireguardPeers: seq<string>, mycelium: Option<Mycelium>)
    | MachineData(flist: string, publicIp: string, planetary: bool, myceliumIp: Option<MyceliumIp>,
                  interfaces: seq<Interface>, size: nat, cpu: nat, memory: nat, mounts: seq<Mount>,
                  entrypoint: string, env: map<string, string>, corex: bool, gpu: seq<string>)
    | VolumeData(volumeSize: Option<nat>)
    | PublicIpData(v4: bool, v6: bool)
    | GatewayNameData(gatewayName: string, nameTls: bool, nameBackends: seq<string>, nameNetwork: string)
    | GatewayFqdnData(fqdn: string, fqdnTls: bool, fqdnBackends: seq<string>, fqdnNetwork: string)
    | OtherData

  /** A field of a workload's result: text, an object that may hold a text under `ip`, or anything else. */
  datatype ResultField = TextField(text: string) | ObjectField(ip: Option<string>) | OtherField

  datatype ResultData = ResultData(created: int, state: string, error: string, data: map<string, ResultField>)

  const EMPTY_RESULT := ResultData(0, "", "", map[])

  datatype DeployWorkload = DeployWorkload(version: nat, name: string, kind: string, data: WorkloadData,
                                           metadata: string, description: string, result: ResultData)

  datatype SignatureRequest = SignatureRequest(twinId: nat, required: bool, weight: nat)
  datatype Signature = Signature(twinId: nat, signature: string, signatureType: string)

  datatype DeployDeployment = DeployDeployment(
    version: nat, twinId: nat, contractId: nat, metadata: string, description: string, expiration: int,
    requests: seq<SignatureRequest>, weightRequired: nat, signatures: seq<Signature>, signatureStyle: string,
    workloads: seq<DeployWorkload>)

  function NewDeployment(twinId: nat, metadata: string, workloads: seq<DeployWorkload>): DeployDeployment {
    DeployDeployment(0, twinId, 0, metadata, "", 0, [SignatureRequest(twinId, false, 1)], 1, [], "", workloads)
  }

  // ---- What the challenge of a workload and of a deployment is ----

  function PushAll(out: string, parts: seq<string>): string
    decreases |parts|
  {
    if parts == [] then out else PushAll(out, parts[..|parts| - 1]) + parts[|parts| - 1]
  }

  function PushMycelium(out: string, mycelium: Option<Mycelium>): string {
    match mycelium
    case Some(m) => PushAll(out + Encode(m.key), m.peers)
    case None => out
  }

  function PushInterfaces(out: string, interfaces: seq<Interface>): string
    decreases |interfaces|
  {
    if interfaces == [] then out
    else
      var last := interfaces[|interfaces| - 1];
      PushInterfaces(out, interfaces[..|interfaces| - 1]) + last.network + last.ip
  }

  function PushMounts(out: string, mounts: seq<Mount>): string
    decreases |mounts|
  {
    if mounts == [] then out
    else
      var last := mounts[|mounts| - 1];
      PushMounts(out, mounts[..|mounts| - 1]) + last.name + last.mountpoint
  }

  function PushEnv(out: string, env: map<string, string>, keys: seq<string>): string
    requires forall k :: k in keys ==> k in env
    decreases |keys|
  {
    if keys == [] then out
    else
      var last := keys[|keys| - 1];
      PushEnv(out, env, keys[..|keys| - 1]) + last + "=" + env[last]
  }

  lemma {:induction false} SortedKeysMembers(keys: set<string>)
    ensures forall k :: k in SortedKeys(keys) <==> k in keys
  {
    if keys != {} {
      LeastExists(keys);
      var k := SortedKeys(keys)[0];
      assert IsLeast(k, keys);
      SortedKeysMembers(keys - {k});
      assert SortedKeys(keys) == [k] + SortedKeys(keys - {k});
    }
  }

  /** The machine's part of the challenge, with the environment's keys in the given order. */
  function MachineText(out: string, m: WorkloadData, keys: seq<string>): string
    requires m.MachineData? && forall k :: k in keys ==> k in m.env
  {
    var nets := PushInterfaces(out, m.interfaces);
    var myc := if m.myceliumIp.Some? then nets + m.myceliumIp.value.network + Encode(m.myceliumIp.value.seed) else nets;
    var caps := myc + Decimal(m.size) + Decimal(m.cpu) + Decimal(m.memory);
    var entry := PushMounts(caps, m.mounts) + m.entrypoint;
    PushAll(PushEnv(entry, m.env, keys), m.gpu)
  }

  ghost function MachineChallenge(out: string, m: WorkloadData): string
    requires m.MachineData?
  {
    SortedKeysMembers(m.env.Keys);
    MachineText(out, m, SortedKeys(m.env.Keys))
  }

  const BAD_DATA := Codec("workload data")

  /** The text `workload_challenge` appends to `out`, or its error. */
  ghost function WorkloadChallenge(out: string, w: DeployWorkload): Result<string> {
    var head := out + Decimal(w.version) + w.name + w.kind + w.metadata + w.description;
    var d := w.data;
    if w.kind == NETWORK_LIGHT_TYPE then
      if !d.NetworkLightData? then Err(BAD_DATA)
      else Ok(PushMycelium(head + "<nil>" + d.subnet + "" + "0", d.lightMycelium))
    else if w.kind == ZMACHINE_LIGHT_TYPE then
      if !d.MachineData? then Err(BAD_DATA) else Ok(MachineChallenge(head + d.flist, d))
    else if w.kind == VOLUME_TYPE then
      if d.VolumeData? && d.volumeSize.Some? then Ok(head + Decimal(d.volumeSize.value))
      else Err(Validation("live volume workload missing size"))
    else if w.kind == PUBLIC_IP_TYPE then
      Ok(head + BoolText(d.PublicIpData? && d.v4) + BoolText(d.PublicIpData? && d.v6))
    else if w.kind == NETWORK_TYPE then
      if !d.NetworkData? then Err(BAD_DATA)
      else Ok(PushMycelium(PushAll(head + d.ipRange + d.netSubnet + d.wireguardKey + Decimal(d.wireguardPort),
                                   d.wireguardPeers), d.mycelium))
    else if w.kind == ZMACHINE_TYPE then
      if !d.MachineData? then Err(BAD_DATA)
      else Ok(MachineChallenge(head + d.flist + d.publicIp + BoolText(d.planetary), d))
    else if w.kind == GATEWAY_NAME_PROXY_TYPE then
      if !d.GatewayNameData? then Err(BAD_DATA)
      else Ok(PushAll(head + d.gatewayName + BoolText(d.nameTls), d.nameBackends))
    else if w.kind == GATEWAY_FQDN_PROXY_TYPE then
      if !d.GatewayFqdnData? then Err(BAD_DATA)
      else Ok(PushAll(head + d.fqdn + BoolText(d.fqdnTls), d.fqdnBackends))
    else Err(Validation("unsupported live workload type " + w.kind))
  }

  ghost function WorkloadsChallenge(out: string, ws: seq<DeployWorkload>): Result<string>
    decreases |ws|
  {
    if ws == [] then Ok(out)
    else
      var before :- WorkloadsChallenge(out, ws[..|ws| - 1]);
      WorkloadChallenge(before, ws[|ws| - 1])
  }

  function PushRequests(out: string, requests: seq<SignatureRequest>): string
    decreases |requests|
  {
    if requests == [] then out
    else
      var last := requests[|requests| - 1];
      PushRequests(out, requests[..|requests| - 1])
      + Decimal(last.twinId) + BoolText(last.required) + Decimal(last.weight)
  }

  ghost function Challenge(d: DeployDeployment): Result<string> {
    var head := "" + Decimal(d.version) + Decimal(d.twinId) + d.metadata + d.description + SignedDecimal(d.expiration);
    var body :- WorkloadsChallenge(head, d.workloads);
    Ok(PushRequests(body, d.requests) + Decimal(d.weightRequired) + d.signatureStyle)
  }

  ghost function HashBytes(c: Crypto, d: DeployDeployment): Result<Digest> {
    var text :- Challenge(d);
    Ok(c.md5(text))
  }

  ghost function HashHex(c: Crypto, d: DeployDeployment): (r: Result<string>)
    ensures r.Ok? ==> |r.value| == 32
  {
    var digest :- HashBytes(c, d);
    Ok(Encode(digest))
  }

  // ---- The imperative hash, refining it ----

  method PushParts(out: string, parts: seq<string>) returns (r: string)
    ensures r == PushAll(out, parts)
  {
    r := out;
    for i := 0 to |parts|
      invariant r == PushAll(out, parts[..i])
    {
      r := r + parts[i];
      assert parts[..i + 1][..i] == parts[..i];
    }
    assert parts[..|parts|] == parts;
  }

  /** The key list that iterating over a hash map hands out: any order whatsoever. */
  method CollectKeys(env: map<string, string>) returns (keys: seq<string>)
    ensures Distinct(keys) && Elements(keys) == env.Keys
  {
    keys := [];
    var left := env.Keys;
    while left != {}
      invariant Distinct(keys)
      invariant left <= env.Keys && Elements(keys) == env.Keys - left
      decreases |left|
    {
      var k :| k in left;
      assert Elements(keys + [k]) == Elements(keys) + {k};
      keys, left := keys + [k], left - {k};
    }
  }

  method MachineChallengeText(out: string, m: WorkloadData) returns (r: string)
    requires m.MachineData?
    ensures r == MachineChallenge(out, m)
  {
    r := out;
    for i := 0 to |m.interfaces|
      invariant r == PushInterfaces(out, m.interfaces[..i])
    {
      r := r + m.interfaces[i].network + m.interfaces[i].ip;
      assert m.interfaces[..i + 1][..i] == m.interfaces[..i];
    }
    assert m.interfaces[..|m.interfaces|] == m.interfaces;
    if m.myceliumIp.Some? {
      r := r + m.myceliumIp.value.network + Encode(m.myceliumIp.value.seed);
    }
    r := r + Decimal(m.size) + Decimal(m.cpu) + Decimal(m.memory);
    ghost var caps := r;
    for i := 0 to |m.mounts|
      invariant r == PushMounts(caps, m.mounts[..i])
    {
      r := r + m.mounts[i].name + m.mounts[i].mountpoint;
      assert m.mounts[..i + 1][..i] == m.mounts[..i];
    }
    assert m.mounts[..|m.mounts|] == m.mounts;
    r := r + m.entrypoint;
    ghost var entry := r;
    var keys := CollectKeys(m.env);
    SortIsCanonical(keys);
    keys := Sort(keys);
    SortedKeysMembers(m.env.Keys);
    for i := 0 to |keys|
      invariant r == PushEnv(entry, m.env, keys[..i])
    {
      r := r + keys[i] + "=" + m.env[keys[i]];
      assert keys[..i + 1][..i] == keys[..i];
    }
    assert keys[..|keys|] == keys;
    r := PushParts(r, m.gpu);
  }

  method MyceliumChallengeText(out: string, mycelium: Option<Mycelium>) returns (r: string)
    ensures r == PushMycelium(out, mycelium)
  {
    r := out;
    if mycelium.Some? {
      r := PushParts(r + Encode(mycelium.value.key), mycelium.value.peers);
    }
  }

  method WorkloadChallengeText(out: string, w: DeployWorkload) returns (r: Result<string>)
    ensures r == WorkloadChallenge(out, w)
  {
    var d := w.data;
    var text := out + Decimal(w.version);
    text := text + w.name;
    text := text + w.kind;
    text := text + w.metadata;
    text := text + w.description;
    if w.kind == NETWORK_LIGHT_TYPE {
      if !d.NetworkLightData? { return Err(BAD_DATA); }
      text := text + "<nil>" + d.subnet + "" + "0";
      text := MyceliumChallengeText(text, d.lightMycelium);
    } else if w.kind == ZMACHINE_LIGHT_TYPE {
      if !d.MachineData? { return Err(BAD_DATA); }
      text := MachineChallengeText(text + d.flist, d);
    } else if w.kind == VOLUME_TYPE {
      if !(d.VolumeData? && d.volumeSize.Some?) {
        return Err(Validation("live volume workload missing size"));
      }
      text := text + Decimal(d.volumeSize.value);
    } else if w.kind == PUBLIC_IP_TYPE {
      text := text + BoolText(d.PublicIpData? && d.v4) + BoolText(d.PublicIpData? && d.v6);
    } else if w.kind == NETWORK_TYPE {
      if !d.NetworkData? { return Err(BAD_DATA); }
      text := text + d.ipRange + d.netSubnet + d.wireguardKey + Decimal(d.wireguardPort);
      text := PushParts(text, d.wireguardPeers);
      text := MyceliumChallengeText(text, d.mycelium);
    } else if w.kind == ZMACHINE_TYPE {
      if !d.MachineData? { return Err(BAD_DATA); }
      text := MachineChallengeText(text + d.flist + d.publicIp + BoolText(d.planetary), d);
    } else if w.kind == GATEWAY_NAME_PROXY_TYPE {
      if !d.GatewayNameData? { return Err(BAD_DATA); }
      text := PushParts(text + d.gatewayName + BoolText(d.nameTls), d.nameBackends);
    } else if w.kind == GATEWAY_FQDN_PROXY_TYPE {
      if !d.GatewayFqdnData? { return Err(BAD_DATA); }
      text := PushParts(text + d.fqdn + BoolText(d.fqdnTls), d.fqdnBackends);
    } else {
      return Err(Validation("unsupported live workload type " + w.kind));
    }
    return Ok(text);
  }

  lemma {:induction false} FailingPrefixFails(out: string, ws: seq<DeployWorkload>, n: nat)
    requires n <= |ws| && WorkloadsChallenge(out, ws[..n]).Err?
    ensures WorkloadsChallenge(out, ws) == WorkloadsChallenge(out, ws[..n])
  {
    if n < |ws| {
      assert ws[..|ws| - 1][..n] == ws[..n];
      FailingPrefixFails(out, ws[..|ws| - 1], n);
    } else {
      assert ws[..n] == ws;
    }
  }

  /** `deployment_hash_bytes`: whatever order the environment maps are iterated in, the digest is
      the one of the canonical challenge. */
  method DeploymentHashBytes(c: Crypto, d: DeployDeployment) returns (r: Result<Digest>)
    ensures r == HashBytes(c, d)
  {
    hide WorkloadChallenge, Decimal, SignedDecimal, BoolText;
    var text := "";
    text := text + Decimal(d.version);
    text := text + Decimal(d.twinId);
    text := text + d.metadata;
    text := text + d.description;
    text := text + SignedDecimal(d.expiration);
    ghost var head := text;
    for i := 0 to |d.workloads|
      invariant WorkloadsChallenge(head, d.workloads[..i]) == Ok(text)
    {
      assert d.workloads[..i + 1][..i] == d.workloads[..i];
      var next := WorkloadChallengeText(text, d.workloads[i]);
      if next.Err? {
        FailingPrefixFails(head, d.workloads, i + 1);
        return Err(next.error);
      }
      text := next.value;
    }
    assert d.workloads[..|d.workloads|] == d.workloads;
    ghost var body := text;
    for i := 0 to |d.requests|
      invariant text == PushRequests(body, d.requests[..i])
    {
      var q := d.requests[i];
      text := text + Decimal(q.twinId) + BoolText(q.required) + Decimal(q.weight);
      assert d.requests[..i + 1][..i] == d.requests[..i];
    }
    assert d.requests[..|d.requests|] == d.requests;
    text := text + Decimal(d.weightRequired) + d.signatureStyle;
    return Ok(c.md5(text));
  }

  method DeploymentHashHex(c: Crypto, d: DeployDeployment) returns (r: Result<string>)
    ensures r == HashHex(c, d)
  {
    var digest := DeploymentHashBytes(c, d);
    if digest.Err? { return Err(digest.error); }
    return Ok(Encode(digest.value));
  }

  ghost function Signed(c: Crypto, d: DeployDeployment, twinId: nat, digest: Digest): DeployDeployment {
    d.(signatures := d.signatures + [Signature(twinId, Encode(c.sign(digest)), "sr25519")])
  }

  method SignDeployment(c: Crypto, d: DeployDeployment, twinId: nat) returns (r: Result<DeployDeployment>)
    ensures r.Ok? <==> HashBytes(c, d).Ok?
    ensures r.Ok? ==> r.value == Signed(c, d, twinId, HashBytes(c, d).value)
    ensures r.Err? ==> r.error == HashBytes(c, d).error
  {
    var digest := DeploymentHashBytes(c, d);
    if digest.Err? { return Err(digest.error); }
    var signature := Encode(c.sign(digest.value));
    return Ok(d.(signatures := d.signatures + [Signature(twinId, signature, "sr25519")]));
  }

  // ---- The hash is canonical ----

  /** Two deployments that differ at most in contract id, signatures and workload results. */
  predicate SameContent(d: DeployDeployment, e: DeployDeployment) {
    && e.version == d.version && e.twinId == d.twinId && e.metadata == d.metadata
    && e.description == d.description && e.expiration == d.expiration && e.requests == d.requests
    && e.weightRequired == d.weightRequired && e.signatureStyle == d.signatureStyle
    && |e.workloads| == |d.workloads|
    && forall i :: 0 <= i < |d.workloads| ==> e.workloads[i] == d.workloads[i].(result := e.workloads[i].result)
  }

  lemma ResultDoesNotCount(out: string, w: DeployWorkload, result: ResultData)
    ensures WorkloadChallenge(out, w.(result := result)) == WorkloadChallenge(out, w)
  {
  }

  lemma {:induction false} ResultsDoNotCount(out: string, ws: seq<DeployWorkload>, vs: seq<DeployWorkload>)
    requires |ws| == |vs|
    requires forall i :: 0 <= i < |ws| ==> vs[i] == ws[i].(result := vs[i].result)
    ensures WorkloadsChallenge(out, ws) == WorkloadsChallenge(out, vs)
  {
    if ws != [] {
      var n := |ws| - 1;
      ResultsDoNotCount(out, ws[..n], vs[..n]);
      var before := WorkloadsChallenge(out, ws[..n]);
      if before.Ok? { ResultDoesNotCount(before.value, ws[n], vs[n].result); }
      hide WorkloadChallenge;
    }
  }

  /** Assigning the contract id, collecting signatures and recording results leave the hash alone. */
  lemma HashIgnoresLaterFields(c: Crypto, d: DeployDeployment, e: DeployDeployment)
    requires SameContent(d, e)
    ensures HashBytes(c, e) == HashBytes(c, d) && HashHex(c, e) == HashHex(c, d)
  {
    var head := "" + Decimal(d.version) + Decimal(d.twinId) + d.metadata + d.description + SignedDecimal(d.expiration);
    ResultsDoNotCount(head, d.workloads, e.workloads);
  }

  /** Whatever order the environment map hands its keys out in, sorting them gives the one challenge of the
      machine. */
  lemma EnumerationOrderIsIrrelevant(out: string, m: WorkloadData, keys: seq<string>)
    requires m.MachineData? && Distinct(keys) && Elements(keys) == m.env.Keys
    ensures (forall k :: k in Sort(keys) ==> k in m.env) && MachineText(out, m, Sort(keys)) == MachineChallenge(out, m)
  {
    hide MachineText;
    SortIsCanonical(keys);
    SortedKeysMembers(m.env.Keys);
  }
}
