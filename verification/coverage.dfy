/** What the challenge of a deployment covers: its parts in order, and that no single one can change unseen. */
module Coverage {
  import opened GridErrors
  import opened Text
  import opened HexCodec
  import opened KeyOrder
  import opened Deployments

  // ---- Lists of parts ----

  function Cat(parts: seq<string>): string {
    if parts == [] then "" else parts[0] + Cat(parts[1..])
  }

  function Flat<T>(xs: seq<T>, f: T -> seq<string>): seq<string> {
    if xs == [] then [] else f(xs[0]) + Flat(xs[1..], f)
  }

  lemma {:induction false} CatAppend(a: seq<string>, b: seq<string>)
    ensures Cat(a + b) == Cat(a) + Cat(b)
  {
    if a == [] {
      assert a + b == b;
    } else {
      assert (a + b)[1..] == a[1..] + b;
      CatAppend(a[1..], b);
    }
  }

  lemma {:induction false} FlatAppend<T>(a: seq<T>, b: seq<T>, f: T -> seq<string>)
    ensures Flat(a + b, f) == Flat(a, f) + Flat(b, f)
  {
    if a == [] {
      assert a + b == b;
    } else {
      assert (a + b)[1..] == a[1..] + b;
      FlatAppend(a[1..], b, f);
    }
  }

  lemma FlatPush<T>(a: seq<T>, x: T, f: T -> seq<string>)
    ensures Cat(Flat(a + [x], f)) == Cat(Flat(a, f)) + Cat(f(x))
  {
    FlatAppend(a, [x], f);
    assert Flat([x], f) == f(x);
    CatAppend(Flat(a, f), f(x));
  }

  // ---- The parts of a challenge ----

  function InterfaceParts(i: Interface): seq<string> { [i.network, i.ip] }
  function MountParts(m: Mount): seq<string> { [m.name, m.mountpoint] }
  function PairParts(p: (string, string)): seq<string> { [p.0, "=", p.1] }
  function RequestParts(r: SignatureRequest): seq<string> {
    [Decimal(r.twinId), BoolText(r.required), Decimal(r.weight)]
  }

  function PairsOf(env: map<string, string>, keys: seq<string>): (ps: seq<(string, string)>)
    requires forall k :: k in keys ==> k in env
    ensures |ps| == |keys|
  {
    seq(|keys|, i requires 0 <= i < |keys| => (keys[i], env[keys[i]]))
  }

  /** The environment as pairs, in the increasing order of its keys. */
  ghost function Pairs(env: map<string, string>): seq<(string, string)> {
    SortedKeysMembers(env.Keys);
    PairsOf(env, SortedKeys(env.Keys))
  }

  function SeedParts(m: Option<MyceliumIp>): seq<string> {
    if m.Some? then [m.value.network, Encode(m.value.seed)] else []
  }

  function KeyParts(m: Option<Mycelium>): seq<string> {
    if m.Some? then [Encode(m.value.key)] + m.value.peers else []
  }

  ghost function MachineParts(m: WorkloadData): seq<string>
    requires m.MachineData?
  {
    Flat(m.interfaces, InterfaceParts) + SeedParts(m.myceliumIp)
    + [Decimal(m.size), Decimal(m.cpu), Decimal(m.memory)] + Flat(m.mounts, MountParts) + [m.entrypoint]
    + Flat(Pairs(m.env), PairParts) + m.gpu
  }

  /** What a workload's data contributes, by its kind; None when it cannot be hashed. */
  ghost function DataParts(kind: string, d: WorkloadData): Option<seq<string>> {
    if kind == "network-light" && d.NetworkLightData? then Some(["<nil>", d.subnet, "0"] + KeyParts(d.lightMycelium))
    else if kind == "network" && d.NetworkData? then
      Some([d.ipRange, d.netSubnet, d.wireguardKey, Decimal(d.wireguardPort)] + d.wireguardPeers + KeyParts(d.mycelium))
    else if kind == "zmachine-light" && d.MachineData? then Some([d.flist] + MachineParts(d))
    else if kind == "zmachine" && d.MachineData? then
      Some([d.flist, d.publicIp, BoolText(d.planetary)] + MachineParts(d))
    else if kind == "volume" && d.VolumeData? && d.volumeSize.Some? then Some([Decimal(d.volumeSize.value)])
    else if kind == "ip" then Some([BoolText(d.PublicIpData? && d.v4), BoolText(d.PublicIpData? && d.v6)])
    else if kind == "gateway-name-proxy" && d.GatewayNameData? then
      Some([d.gatewayName, BoolText(d.nameTls)] + d.nameBackends)
    else if kind == "gateway-fqdn-proxy" && d.GatewayFqdnData? then
      Some([d.fqdn, BoolText(d.fqdnTls)] + d.fqdnBackends)
    else None
  }

  ghost function WorkloadParts(w: DeployWorkload): seq<string> {
    [Decimal(w.version), w.name, w.kind, w.metadata, w.description] + DataParts(w.kind, w.data).GetOr([])
  }

  ghost function AllParts(d: DeployDeployment): seq<string> {
    [Decimal(d.version), Decimal(d.twinId), d.metadata, d.description, SignedDecimal(d.expiration)]
    + Flat(d.workloads, (w: DeployWorkload) => WorkloadParts(w)) + Flat(d.requests, RequestParts)
    + [Decimal(d.weightRequired), d.signatureStyle]
  }

  // ---- The challenge is its parts ----

  lemma {:induction false} PushedAll(out: string, parts: seq<string>)
    ensures PushAll(out, parts) == out + Cat(parts)
    decreases |parts|
  {
    if parts != [] {
      var n := |parts| - 1;
      PushedAll(out, parts[..n]);
      assert parts == parts[..n] + [parts[n]];
      CatAppend(parts[..n], [parts[n]]);
      assert Cat([parts[n]]) == parts[n];
    }
  }

  lemma {:induction false} PushedInterfaces(out: string, xs: seq<Interface>)
    ensures PushInterfaces(out, xs) == out + Cat(Flat(xs, InterfaceParts))
    decreases |xs|
  {
    if xs != [] {
      var n := |xs| - 1;
      PushedInterfaces(out, xs[..n]);
      assert xs == xs[..n] + [xs[n]];
      FlatPush(xs[..n], xs[n], InterfaceParts);
      TwoParts(xs[n].network, xs[n].ip);
    }
  }

  lemma {:induction false} PushedMounts(out: string, xs: seq<Mount>)
    ensures PushMounts(out, xs) == out + Cat(Flat(xs, MountParts))
    decreases |xs|
  {
    if xs != [] {
      var n := |xs| - 1;
      PushedMounts(out, xs[..n]);
      assert xs == xs[..n] + [xs[n]];
      FlatPush(xs[..n], xs[n], MountParts);
      TwoParts(xs[n].name, xs[n].mountpoint);
    }
  }

  lemma TwoParts(a: string, b: string)
    ensures Cat([a, b]) == a + b
  {
    OnePart(b);
    assert [a, b][1..] == [b];
  }

  lemma ThreeParts(a: string, b: string, c: string)
    ensures Cat([a, b, c]) == a + b + c
  {
    assert [a, b, c][1..] == [b, c];
    TwoParts(b, c);
  }

  lemma {:induction false} PushedEnv(out: string, env: map<string, string>, keys: seq<string>)
    requires forall k :: k in keys ==> k in env
    ensures PushEnv(out, env, keys) == out + Cat(Flat(PairsOf(env, keys), PairParts))
    decreases |keys|
  {
    if keys != [] {
      var n := |keys| - 1;
      var last := (keys[n], env[keys[n]]);
      PushedEnv(out, env, keys[..n]);
      assert PairsOf(env, keys) == PairsOf(env, keys[..n]) + [last];
      FlatPush(PairsOf(env, keys[..n]), last, PairParts);
      ThreeParts(keys[n], "=", env[keys[n]]);
      assert PushEnv(out, env, keys) == PushEnv(out, env, keys[..n]) + keys[n] + "=" + env[keys[n]];
      hide PushEnv, Flat, Cat, PairsOf;
      Regroup(out, Cat(Flat(PairsOf(env, keys[..n]), PairParts)), keys[n], "=", env[keys[n]]);
    }
  }

  lemma PushedMycelium(out: string, m: Option<Mycelium>)
    ensures PushMycelium(out, m) == out + Cat(KeyParts(m))
  {
    if m.Some? { PushedAll(out + Encode(m.value.key), m.value.peers); }
  }

  lemma PushedMachine(out: string, m: WorkloadData)
    requires m.MachineData?
    ensures MachineChallenge(out, m) == out + Cat(MachineParts(m))
  {
    hide Flat, Cat, PushInterfaces, PushMounts, PushEnv, PushAll, Encode, SortedKeys, PairsOf, Decimal;
    var nets, seed := Flat(m.interfaces, InterfaceParts), SeedParts(m.myceliumIp);
    var mounts, env := Flat(m.mounts, MountParts), Flat(Pairs(m.env), PairParts);
    SortedKeysMembers(m.env.Keys);
    PushedInterfaces(out, m.interfaces);
    PushedSeed(out + Cat(nets), m.myceliumIp);
    hide SeedParts;
    var three := out + Cat(nets) + Cat(seed) + Decimal(m.size) + Decimal(m.cpu) + Decimal(m.memory);
    PushedMounts(three, m.mounts);
    var four := three + Cat(mounts) + m.entrypoint;
    PushedEnv(four, m.env, SortedKeys(m.env.Keys));
    PushedAll(four + Cat(env), m.gpu);
    MachineCat(out, nets, seed, Decimal(m.size), Decimal(m.cpu), Decimal(m.memory), mounts, m.entrypoint, env, m.gpu);
  }

  lemma PushedSeed(out: string, m: Option<MyceliumIp>)
    ensures (if m.Some? then out + m.value.network + Encode(m.value.seed) else out) == out + Cat(SeedParts(m))
  {
    if m.Some? { TwoParts(m.value.network, Encode(m.value.seed)); } else { NoParts(); }
  }

  lemma MachineCat(out: string, nets: seq<string>, seed: seq<string>, size: string, cpu: string, memory: string,
                   mounts: seq<string>, entrypoint: string, env: seq<string>, gpu: seq<string>)
    ensures out + Cat(nets) + Cat(seed) + size + cpu + memory + Cat(mounts) + entrypoint + Cat(env) + Cat(gpu)
            == out + Cat(nets + seed + [size, cpu, memory] + mounts + [entrypoint] + env + gpu)
  {
    ThreeParts(size, cpu, memory);
    OnePart(entrypoint);
    SevenParts(nets, seed, [size, cpu, memory], mounts, [entrypoint], env, gpu);
    hide Cat;
  }

  lemma Regroup(out: string, before: string, a: string, b: string, c: string)
    ensures out + before + a + b + c == out + (before + (a + b + c))
  {
  }

  lemma NoParts()
    ensures Cat([]) == ""
  {
  }

  lemma OnePart(a: string)
    ensures Cat([a]) == a
  {
    assert [a][1..] == [];
  }

  lemma SevenParts(a: seq<string>, b: seq<string>, c: seq<string>, d: seq<string>, e: seq<string>, f: seq<string>,
                   g: seq<string>)
    ensures Cat(a + b + c + d + e + f + g) == Cat(a) + Cat(b) + Cat(c) + Cat(d) + Cat(e) + Cat(f) + Cat(g)
  {
    hide Cat;
    CatAppend(a, b);
    CatAppend(a + b, c);
    CatAppend(a + b + c, d);
    CatAppend(a + b + c + d, e);
    CatAppend(a + b + c + d + e, f);
    CatAppend(a + b + c + d + e + f, g);
  }

  lemma FiveHeads(a: string, b: string, c: string, d: string, e: string, rest: seq<string>)
    ensures Cat([a, b, c, d, e] + rest) == a + b + c + d + e + Cat(rest)
  {
    CatAppend([a, b, c, d, e], rest);
    assert [a, b, c, d, e] == [a, b] + [c, d, e];
    CatAppend([a, b], [c, d, e]);
    TwoParts(a, b);
    ThreeParts(c, d, e);
  }

  /** The text of a workload whose data can be hashed, in front of it `head`. */
  ghost function DataText(head: string, kind: string, d: WorkloadData): string
    requires DataParts(kind, d).Some?
  {
    if kind == "network-light" then PushMycelium(head + "<nil>" + d.subnet + "" + "0", d.lightMycelium)
    else if kind == "zmachine-light" then MachineChallenge(head + d.flist, d)
    else if kind == "volume" then head + Decimal(d.volumeSize.value)
    else if kind == "ip" then head + BoolText(d.PublicIpData? && d.v4) + BoolText(d.PublicIpData? && d.v6)
    else if kind == "network" then
      PushMycelium(PushAll(head + d.ipRange + d.netSubnet + d.wireguardKey + Decimal(d.wireguardPort),
                           d.wireguardPeers), d.mycelium)
    else if kind == "zmachine" then MachineChallenge(head + d.flist + d.publicIp + BoolText(d.planetary), d)
    else if kind == "gateway-name-proxy" then PushAll(head + d.gatewayName + BoolText(d.nameTls), d.nameBackends)
    else PushAll(head + d.fqdn + BoolText(d.fqdnTls), d.fqdnBackends)
  }

  lemma ChallengeIsDataText(out: string, w: DeployWorkload)
    ensures WorkloadChallenge(out, w).Ok? <==> DataParts(w.kind, w.data).Some?
    ensures WorkloadChallenge(out, w).Ok? ==>
              var head := out + Decimal(w.version) + w.name + w.kind + w.metadata + w.description;
              WorkloadChallenge(out, w).value == DataText(head, w.kind, w.data)
  {
    hide MachineChallenge, MachineParts, PushMycelium, PushAll, KeyParts, Decimal, BoolText;
  }

  lemma PushedWorkload(out: string, w: DeployWorkload)
    ensures WorkloadChallenge(out, w).Ok? <==> DataParts(w.kind, w.data).Some?
    ensures WorkloadChallenge(out, w).Ok? ==> WorkloadChallenge(out, w).value == out + Cat(WorkloadParts(w))
  {
    hide WorkloadChallenge, DataText, DataParts, Cat, Decimal;
    ChallengeIsDataText(out, w);
    var head, parts := out + Decimal(w.version) + w.name + w.kind + w.metadata + w.description,
                       DataParts(w.kind, w.data);
    if parts.Some? {
      FiveHeads(Decimal(w.version), w.name, w.kind, w.metadata, w.description, parts.value);
      PushedData(head, w.kind, w.data);
    }
  }

  lemma PushedData(head: string, kind: string, d: WorkloadData)
    requires DataParts(kind, d).Some?
    ensures DataText(head, kind, d) == head + Cat(DataParts(kind, d).value)
  {
    hide MachineChallenge, MachineParts, PushMycelium, PushAll, KeyParts, Cat, Decimal, BoolText;
    if kind == "network-light" {
      ThreeParts("<nil>", d.subnet, "0");
      CatAppend(["<nil>", d.subnet, "0"], KeyParts(d.lightMycelium));
      PushedMycelium(head + "<nil>" + d.subnet + "" + "0", d.lightMycelium);
    } else if kind == "zmachine-light" {
      OnePart(d.flist);
      CatAppend([d.flist], MachineParts(d));
      PushedMachine(head + d.flist, d);
    } else if kind == "volume" {
      OnePart(Decimal(d.volumeSize.value));
    } else if kind == "ip" {
      TwoParts(BoolText(d.PublicIpData? && d.v4), BoolText(d.PublicIpData? && d.v6));
    } else if kind == "network" {
      PushedNetwork(head, d);
    } else if kind == "zmachine" {
      ThreeParts(d.flist, d.publicIp, BoolText(d.planetary));
      CatAppend([d.flist, d.publicIp, BoolText(d.planetary)], MachineParts(d));
      PushedMachine(head + d.flist + d.publicIp + BoolText(d.planetary), d);
    } else if kind == "gateway-name-proxy" {
      PushedGateway(head, d.gatewayName, d.nameTls, d.nameBackends);
    } else {
      PushedGateway(head, d.fqdn, d.fqdnTls, d.fqdnBackends);
    }
  }

  lemma PushedGateway(head: string, name: string, tls: bool, backends: seq<string>)
    ensures PushAll(head + name + BoolText(tls), backends) == head + Cat([name, BoolText(tls)] + backends)
  {
    TwoParts(name, BoolText(tls));
    CatAppend([name, BoolText(tls)], backends);
    PushedAll(head + name + BoolText(tls), backends);
  }

  lemma PushedNetwork(head: string, d: WorkloadData)
    requires d.NetworkData?
    ensures var start := [d.ipRange, d.netSubnet, d.wireguardKey, Decimal(d.wireguardPort)];
            PushMycelium(PushAll(head + d.ipRange + d.netSubnet + d.wireguardKey + Decimal(d.wireguardPort),
                                 d.wireguardPeers), d.mycelium)
            == head + Cat(start + d.wireguardPeers + KeyParts(d.mycelium))
  {
    hide PushMycelium, PushAll, KeyParts, Cat, Decimal;
    var start := [d.ipRange, d.netSubnet, d.wireguardKey, Decimal(d.wireguardPort)];
    FourParts(d.ipRange, d.netSubnet, d.wireguardKey, Decimal(d.wireguardPort));
    CatAppend(start, d.wireguardPeers);
    CatAppend(start + d.wireguardPeers, KeyParts(d.mycelium));
    assert head + d.ipRange + d.netSubnet + d.wireguardKey + Decimal(d.wireguardPort) == head + Cat(start);
    PushedAll(head + Cat(start), d.wireguardPeers);
    PushedMycelium(head + Cat(start) + Cat(d.wireguardPeers), d.mycelium);
  }

  lemma FourParts(a: string, b: string, c: string, d: string)
    ensures Cat([a, b, c, d]) == a + b + c + d
  {
    assert [a, b, c, d] == [a, b] + [c, d];
    CatAppend([a, b], [c, d]);
    TwoParts(a, b);
    TwoParts(c, d);
  }

  lemma {:induction false} PushedWorkloads(out: string, ws: seq<DeployWorkload>)
    ensures WorkloadsChallenge(out, ws).Ok? <==> forall w :: w in ws ==> DataParts(w.kind, w.data).Some?
    ensures WorkloadsChallenge(out, ws).Ok? ==>
              WorkloadsChallenge(out, ws).value == out + Cat(Flat(ws, (w: DeployWorkload) => WorkloadParts(w)))
    decreases |ws|
  {
    hide WorkloadChallenge, DataParts, WorkloadParts;
    if ws != [] {
      var n := |ws| - 1;
      PushedWorkloads(out, ws[..n]);
      assert ws == ws[..n] + [ws[n]];
      var before := WorkloadsChallenge(out, ws[..n]);
      if before.Ok? { PushedWorkload(before.value, ws[n]); }
      FlatPush(ws[..n], ws[n], (w: DeployWorkload) => WorkloadParts(w));
    }
  }

  lemma {:induction false} PushedRequests(out: string, xs: seq<SignatureRequest>)
    ensures PushRequests(out, xs) == out + Cat(Flat(xs, RequestParts))
    decreases |xs|
  {
    if xs != [] {
      var n := |xs| - 1;
      var a, b, c := Decimal(xs[n].twinId), BoolText(xs[n].required), Decimal(xs[n].weight);
      PushedRequests(out, xs[..n]);
      assert xs == xs[..n] + [xs[n]];
      FlatPush(xs[..n], xs[n], RequestParts);
      ThreeParts(a, b, c);
      assert PushRequests(out, xs) == PushRequests(out, xs[..n]) + a + b + c;
      hide Decimal, BoolText, PushRequests, Flat, Cat;
      Regroup(out, Cat(Flat(xs[..n], RequestParts)), a, b, c);
    }
  }

  /** The challenge is its parts, one after the other, and exists when every workload has its data. */
  lemma ChallengeIsItsParts(d: DeployDeployment)
    ensures Challenge(d).Ok? <==> forall w :: w in d.workloads ==> DataParts(w.kind, w.data).Some?
    ensures Challenge(d).Ok? ==> Challenge(d).value == Cat(AllParts(d))
  {
    hide WorkloadsChallenge, PushRequests, Decimal, SignedDecimal, Flat, Cat, WorkloadParts, DataParts;
    var head := "" + Decimal(d.version) + Decimal(d.twinId) + d.metadata + d.description + SignedDecimal(d.expiration);
    var body := Flat(d.workloads, (w: DeployWorkload) => WorkloadParts(w));
    var requests, tail := Flat(d.requests, RequestParts), [Decimal(d.weightRequired), d.signatureStyle];
    PushedWorkloads(head, d.workloads);
    PushedRequests(head + Cat(body), d.requests);
    TwoParts(tail[0], tail[1]);
    CatAppend(body, requests);
    CatAppend(body + requests, tail);
    FiveHeads(Decimal(d.version), Decimal(d.twinId), d.metadata, d.description, SignedDecimal(d.expiration),
              body + requests + tail);
    assert AllParts(d)
        == [Decimal(d.version), Decimal(d.twinId), d.metadata, d.description, SignedDecimal(d.expiration)]
           + (body + requests + tail);
  }
}
