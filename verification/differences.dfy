/** Deployments that differ in one covered field have different challenges. */
module Differences {
  import opened GridErrors
  import opened Text
  import opened HexCodec
  import opened KeyOrder
  import opened Deployments
  import opened Coverage

  // ---- Lists that differ in one part ----

  /** The lists differ at one place and nowhere else. */
  ghost predicate OneApart(p: seq<string>, q: seq<string>) {
    exists i :: ApartAt(p, q, i)
  }

  predicate ApartAt<T(==)>(p: seq<T>, q: seq<T>, i: int) {
    0 <= i < |p| == |q| && p[i] != q[i] && p[..i] == q[..i] && p[i + 1..] == q[i + 1..]
  }

  /** Then their concatenations differ: what is around the place cancels. */
  lemma OneApartShows(p: seq<string>, q: seq<string>)
    requires OneApart(p, q)
    ensures Cat(p) != Cat(q)
  {
    var i :| ApartAt(p, q, i);
    assert p == p[..i] + [p[i]] + p[i + 1..] && q == q[..i] + [q[i]] + q[i + 1..];
    var a, b := p[..i], p[i + 1..];
    CatAround(a, p[i], b);
    CatAround(a, q[i], b);
    if Cat(p) == Cat(q) { Cancels(Cat(a), p[i], q[i], Cat(b)); }
  }

  lemma CatAround(a: seq<string>, x: string, b: seq<string>)
    ensures Cat(a + [x] + b) == Cat(a) + x + Cat(b)
  {
    CatAppend(a, [x]);
    CatAppend(a + [x], b);
    OnePart(x);
  }

  lemma Cancels(a: string, x: string, y: string, b: string)
    requires a + x + b == a + y + b
    ensures x == y
  {
    assert |x| == |y|;
    assert x == (a + x + b)[|a|..|a| + |x|];
    assert y == (a + y + b)[|a|..|a| + |y|];
  }

  lemma OneApartInside(a: seq<string>, p: seq<string>, q: seq<string>, b: seq<string>)
    requires OneApart(p, q)
    ensures OneApart(a + p + b, a + q + b)
  {
    var i :| ApartAt(p, q, i);
    var u, v, k := a + p + b, a + q + b, |a| + i;
    assert u[..k] == a + p[..i] && v[..k] == a + q[..i];
    assert u[k + 1..] == p[i + 1..] + b && v[k + 1..] == q[i + 1..] + b;
    assert ApartAt(u, v, k);
  }

  lemma OneApartFirst(p: seq<string>, q: seq<string>, b: seq<string>)
    requires OneApart(p, q)
    ensures OneApart(p + b, q + b)
  {
    OneApartInside([], p, q, b);
    assert [] + p + b == p + b && [] + q + b == q + b;
  }

  lemma OneApartLast(a: seq<string>, p: seq<string>, q: seq<string>)
    requires OneApart(p, q)
    ensures OneApart(a + p, a + q)
  {
    OneApartInside(a, p, q, []);
    assert a + p + [] == a + p && a + q + [] == a + q;
  }

  lemma OneItem(a: seq<string>, x: string, y: string, b: seq<string>)
    requires x != y
    ensures OneApart(a + [x] + b, a + [y] + b)
  {
    assert ApartAt([x], [y], 0);
    OneApartInside(a, [x], [y], b);
  }

  /** One item of a list changed in one of its parts. */
  lemma FlatOneApart<T>(xs: seq<T>, ys: seq<T>, i: int, f: T -> seq<string>)
    requires ApartAt(xs, ys, i) && OneApart(f(xs[i]), f(ys[i]))
    ensures OneApart(Flat(xs, f), Flat(ys, f))
  {
    var a, b := xs[..i], xs[i + 1..];
    assert xs == a + [xs[i]] + b && ys == a + [ys[i]] + b;
    FlatAround(a, xs[i], b, f);
    FlatAround(a, ys[i], b, f);
    OneApartInside(Flat(a, f), f(xs[i]), f(ys[i]), Flat(b, f));
  }

  lemma FlatAround<T>(a: seq<T>, x: T, b: seq<T>, f: T -> seq<string>)
    ensures Flat(a + [x] + b, f) == Flat(a, f) + f(x) + Flat(b, f)
  {
    FlatAppend(a + [x], b, f);
    FlatAppend(a, [x], f);
    assert Flat([x], f) == f(x) + Flat([], f);
  }

  // ---- Fields ----

  /** The interfaces differ in one text of one of them, and so on for the other lists. */
  ghost predicate InterfacesApart(p: seq<Interface>, q: seq<Interface>) {
    exists i :: ApartAt(p, q, i) && (q[i] == p[i].(network := q[i].network) || q[i] == p[i].(ip := q[i].ip))
  }

  ghost predicate MountsApart(p: seq<Mount>, q: seq<Mount>) {
    exists i :: ApartAt(p, q, i) && (q[i] == p[i].(name := q[i].name) || q[i] == p[i].(mountpoint := q[i].mountpoint))
  }

  /** The same keys, with another value for one. */
  ghost predicate EnvApart(p: map<string, string>, q: map<string, string>) {
    exists k :: k in p && k in q && q[k] != p[k] && q == p[k := q[k]]
  }

  ghost predicate RequestsApart(p: seq<SignatureRequest>, q: seq<SignatureRequest>) {
    exists i :: ApartAt(p, q, i) && (|| q[i] == p[i].(twinId := q[i].twinId) || q[i] == p[i].(required := q[i].required)
                                     || q[i] == p[i].(weight := q[i].weight))
  }

  ghost predicate SeedsApart(p: Option<MyceliumIp>, q: Option<MyceliumIp>) {
    && p.Some? && q.Some? && p != q
    && (q.value == p.value.(network := q.value.network) || q.value == p.value.(seed := q.value.seed))
  }

  ghost predicate KeysApart(p: Option<Mycelium>, q: Option<Mycelium>) {
    && p.Some? && q.Some?
    && (|| (q.value == p.value.(key := q.value.key) && q.value.key != p.value.key)
        || (q.value == p.value.(peers := q.value.peers) && OneApart(p.value.peers, q.value.peers)))
  }

  /** Machines that differ in one hashed field; `corex` is not hashed. */
  ghost predicate MachinesApart(m: WorkloadData, n: WorkloadData)
    requires m.MachineData? && n.MachineData?
  {
    || (n == m.(flist := n.flist) && n.flist != m.flist)
    || (n == m.(size := n.size) && n.size != m.size)
    || (n == m.(cpu := n.cpu) && n.cpu != m.cpu)
    || (n == m.(memory := n.memory) && n.memory != m.memory)
    || (n == m.(entrypoint := n.entrypoint) && n.entrypoint != m.entrypoint)
    || (n == m.(interfaces := n.interfaces) && InterfacesApart(m.interfaces, n.interfaces))
    || (n == m.(mounts := n.mounts) && MountsApart(m.mounts, n.mounts))
    || (n == m.(env := n.env) && EnvApart(m.env, n.env))
    || (n == m.(myceliumIp := n.myceliumIp) && SeedsApart(m.myceliumIp, n.myceliumIp))
    || (n == m.(gpu := n.gpu) && OneApart(m.gpu, n.gpu))
  }

  /** Full networks that differ in one hashed field. */
  ghost predicate NetworksApart(d: WorkloadData, e: WorkloadData)
    requires d.NetworkData? && e.NetworkData?
  {
    || (e == d.(ipRange := e.ipRange) && e.ipRange != d.ipRange)
    || (e == d.(netSubnet := e.netSubnet) && e.netSubnet != d.netSubnet)
    || (e == d.(wireguardKey := e.wireguardKey) && e.wireguardKey != d.wireguardKey)
    || (e == d.(wireguardPort := e.wireguardPort) && e.wireguardPort != d.wireguardPort)
    || (e == d.(wireguardPeers := e.wireguardPeers) && OneApart(d.wireguardPeers, e.wireguardPeers))
    || (e == d.(mycelium := e.mycelium) && KeysApart(d.mycelium, e.mycelium))
  }

  /** Data of one kind that differ in one hashed field. */
  ghost predicate DataApart(kind: string, d: WorkloadData, e: WorkloadData) {
    && DataParts(kind, d).Some? && DataParts(kind, e).Some?
    && if kind == "zmachine-light" then MachinesApart(d, e)
       else if kind == "zmachine" then
         || MachinesApart(d, e)
         || (e == d.(publicIp := e.publicIp) && e.publicIp != d.publicIp)
         || (e == d.(planetary := e.planetary) && e.planetary != d.planetary)
       else if kind == "network" then NetworksApart(d, e)
       else if kind == "network-light" then
         || (e == d.(subnet := e.subnet) && e.subnet != d.subnet)
         || (e == d.(lightMycelium := e.lightMycelium) && KeysApart(d.lightMycelium, e.lightMycelium))
       else if kind == "volume" then d != e
       else if kind == "ip" then
         && d.PublicIpData? && e.PublicIpData?
         && ((d.v4 != e.v4 && d.v6 == e.v6) || (d.v4 == e.v4 && d.v6 != e.v6))
       else if kind == "gateway-name-proxy" then
         || (e == d.(gatewayName := e.gatewayName) && e.gatewayName != d.gatewayName)
         || (e == d.(nameTls := e.nameTls) && e.nameTls != d.nameTls)
         || (e == d.(nameBackends := e.nameBackends) && OneApart(d.nameBackends, e.nameBackends))
       else
         || (e == d.(fqdn := e.fqdn) && e.fqdn != d.fqdn)
         || (e == d.(fqdnTls := e.fqdnTls) && e.fqdnTls != d.fqdnTls)
         || (e == d.(fqdnBackends := e.fqdnBackends) && OneApart(d.fqdnBackends, e.fqdnBackends))
  }

  ghost predicate WorkloadApart(w: DeployWorkload, v: DeployWorkload) {
    || (v == w.(version := v.version) && v.version != w.version)
    || (v == w.(name := v.name) && v.name != w.name)
    || (v == w.(metadata := v.metadata) && v.metadata != w.metadata)
    || (v == w.(description := v.description) && v.description != w.description)
    || (v == w.(data := v.data) && DataApart(w.kind, w.data, v.data))
  }

  ghost predicate WorkloadsApart(p: seq<DeployWorkload>, q: seq<DeployWorkload>) {
    exists i :: ApartAt(p, q, i) && WorkloadApart(p[i], q[i])
  }

  /** Deployments that differ in one hashed field. */
  ghost predicate DeploymentsApart(d: DeployDeployment, e: DeployDeployment) {
    || (e == d.(version := e.version) && e.version != d.version)
    || (e == d.(twinId := e.twinId) && e.twinId != d.twinId)
    || (e == d.(metadata := e.metadata) && e.metadata != d.metadata)
    || (e == d.(description := e.description) && e.description != d.description)
    || (e == d.(expiration := e.expiration) && e.expiration != d.expiration)
    || (e == d.(weightRequired := e.weightRequired) && e.weightRequired != d.weightRequired)
    || (e == d.(signatureStyle := e.signatureStyle) && e.signatureStyle != d.signatureStyle)
    || (e == d.(requests := e.requests) && RequestsApart(d.requests, e.requests))
    || (e == d.(workloads := e.workloads) && WorkloadsApart(d.workloads, e.workloads))
  }

  // ---- Numbers, truth values and bytes differ as texts ----

  lemma NumbersDiffer(m: nat, n: nat)
    ensures Decimal(m) == Decimal(n) ==> m == n
  {
    if Decimal(m) == Decimal(n) { DecimalInjective(m, n); }
  }

  lemma SignedDiffer(m: int, n: int)
    ensures SignedDecimal(m) == SignedDecimal(n) ==> m == n
  {
    if SignedDecimal(m) == SignedDecimal(n) {
      var a, b := if m < 0 then -m else m, if n < 0 then -n else n;
      assert m < 0 <==> n < 0 by {
        assert Decimal(a)[0] in Decimal(a) && Decimal(b)[0] in Decimal(b);
      }
      if m < 0 { assert Decimal(a) == SignedDecimal(m)[1..] && Decimal(b) == SignedDecimal(n)[1..]; }
      DecimalInjective(a, b);
    }
  }

  lemma TruthsDiffer(a: bool, b: bool)
    ensures BoolText(a) == BoolText(b) ==> a == b
  {
    assert |"true"| != |"false"|;
  }

  lemma BytesDiffer(a: seq<Byte>, b: seq<Byte>)
    ensures Encode(a) == Encode(b) ==> a == b
  {
    DecodeInvertsEncode(a);
    DecodeInvertsEncode(b);
    hide Encode, DecodeHexLike;
  }

  // ---- Parts of workloads ----

  lemma RequestsShow(p: seq<SignatureRequest>, q: seq<SignatureRequest>)
    requires RequestsApart(p, q)
    ensures OneApart(Flat(p, RequestParts), Flat(q, RequestParts))
  {
    var i :| ApartAt(p, q, i) && (|| q[i] == p[i].(twinId := q[i].twinId) || q[i] == p[i].(required := q[i].required)
                                  || q[i] == p[i].(weight := q[i].weight));
    NumbersDiffer(p[i].twinId, q[i].twinId);
    TruthsDiffer(p[i].required, q[i].required);
    NumbersDiffer(p[i].weight, q[i].weight);
    hide Decimal, BoolText;
    ThreeApart(RequestParts(p[i]), RequestParts(q[i]));
    FlatOneApart(p, q, i, RequestParts);
  }

  lemma ThreeApart(p: seq<string>, q: seq<string>)
    requires |p| == |q| == 3
    requires || (p[0] != q[0] && p[1] == q[1] && p[2] == q[2]) || (p[0] == q[0] && p[1] != q[1] && p[2] == q[2])
             || (p[0] == q[0] && p[1] == q[1] && p[2] != q[2])
    ensures OneApart(p, q)
  {
    if p[0] != q[0] { assert ApartAt(p, q, 0); }
    if p[1] != q[1] { assert ApartAt(p, q, 1); }
    if p[2] != q[2] { assert ApartAt(p, q, 2); }
  }

  lemma TwoApart(p: seq<string>, q: seq<string>)
    requires |p| == |q| == 2 && (p[0] != q[0] <==> p[1] == q[1])
    ensures OneApart(p, q)
  {
    if p[0] != q[0] { assert ApartAt(p, q, 0); } else { assert ApartAt(p, q, 1); }
  }

  lemma InterfacesShow(p: seq<Interface>, q: seq<Interface>)
    requires InterfacesApart(p, q)
    ensures OneApart(Flat(p, InterfaceParts), Flat(q, InterfaceParts))
  {
    var i :| ApartAt(p, q, i) && (q[i] == p[i].(network := q[i].network) || q[i] == p[i].(ip := q[i].ip));
    TwoApart(InterfaceParts(p[i]), InterfaceParts(q[i]));
    FlatOneApart(p, q, i, InterfaceParts);
  }

  lemma MountsShow(p: seq<Mount>, q: seq<Mount>)
    requires MountsApart(p, q)
    ensures OneApart(Flat(p, MountParts), Flat(q, MountParts))
  {
    var i :| ApartAt(p, q, i) && (q[i] == p[i].(name := q[i].name) || q[i] == p[i].(mountpoint := q[i].mountpoint));
    TwoApart(MountParts(p[i]), MountParts(q[i]));
    FlatOneApart(p, q, i, MountParts);
  }

  lemma {:induction false} SortedKeysDistinct(keys: set<string>)
    ensures Distinct(SortedKeys(keys))
  {
    if keys != {} {
      LeastExists(keys);
      var k := SortedKeys(keys)[0];
      assert IsLeast(k, keys);
      assert SortedKeys(keys) == [k] + SortedKeys(keys - {k});
      SortedKeysMembers(keys - {k});
      SortedKeysDistinct(keys - {k});
    }
  }

  /** Every environment value counts. */
  lemma EnvShows(p: map<string, string>, q: map<string, string>)
    requires EnvApart(p, q)
    ensures OneApart(Flat(Pairs(p), PairParts), Flat(Pairs(q), PairParts))
  {
    var i := PairsApart(p, q);
    var a, b := Pairs(p), Pairs(q);
    hide Pairs;
    ThreeApart(PairParts(a[i]), PairParts(b[i]));
    FlatOneApart(a, b, i, PairParts);
  }

  lemma PairsApart(p: map<string, string>, q: map<string, string>) returns (i: int)
    requires EnvApart(p, q)
    ensures ApartAt(Pairs(p), Pairs(q), i) && Pairs(p)[i].0 == Pairs(q)[i].0 && Pairs(p)[i].1 != Pairs(q)[i].1
  {
    var k :| k in p && k in q && q[k] != p[k] && q == p[k := q[k]];
    assert p.Keys == q.Keys;
    var keys := SortedKeys(p.Keys);
    SortedKeysMembers(p.Keys);
    SortedKeysDistinct(p.Keys);
    hide SortedKeys;
    i :| 0 <= i < |keys| && keys[i] == k;
    KeyedApart(p, q, keys, i);
  }

  lemma KeyedApart(p: map<string, string>, q: map<string, string>, keys: seq<string>, i: int)
    requires (forall k :: k in keys ==> k in p && k in q) && Distinct(keys) && 0 <= i < |keys|
    requires forall k :: k in keys ==> (p[k] == q[k] <==> k != keys[i])
    ensures ApartAt(PairsOf(p, keys), PairsOf(q, keys), i)
    ensures PairsOf(p, keys)[i] == (keys[i], p[keys[i]]) && PairsOf(q, keys)[i] == (keys[i], q[keys[i]])
  {
    var a, b := PairsOf(p, keys), PairsOf(q, keys);
    forall j | 0 <= j < |keys| && j != i ensures a[j] == b[j] { assert keys[j] in keys && keys[j] != keys[i]; }
    assert keys[i] in keys;
    hide PairsOf, Distinct;
  }

  lemma SeedsShow(p: Option<MyceliumIp>, q: Option<MyceliumIp>)
    requires SeedsApart(p, q)
    ensures OneApart(SeedParts(p), SeedParts(q))
  {
    BytesDiffer(p.value.seed, q.value.seed);
    hide Encode;
    TwoApart(SeedParts(p), SeedParts(q));
  }

  lemma KeysShow(p: Option<Mycelium>, q: Option<Mycelium>)
    requires KeysApart(p, q)
    ensures OneApart(KeyParts(p), KeyParts(q))
  {
    BytesDiffer(p.value.key, q.value.key);
    hide Encode;
    var key := [Encode(p.value.key)];
    if p.value.key != q.value.key {
      OneItem([], Encode(p.value.key), Encode(q.value.key), p.value.peers);
      assert forall x: string :: [] + [x] + p.value.peers == [x] + p.value.peers;
    } else {
      OneApartLast(key, p.value.peers, q.value.peers);
    }
  }

  /** One of seven lists differs in one place, and the others are the same. */
  lemma SevenApart(p: seq<seq<string>>, q: seq<seq<string>>, k: nat)
    requires |p| == |q| == 7 && k < 7 && OneApart(p[k], q[k]) && forall j :: 0 <= j < 7 && j != k ==> p[j] == q[j]
    ensures OneApart(p[0] + p[1] + p[2] + p[3] + p[4] + p[5] + p[6], q[0] + q[1] + q[2] + q[3] + q[4] + q[5] + q[6])
  {
    hide OneApart;
    var x, y := p[0], q[0];
    assert k == 0 ==> OneApart(x, y);
    assert k > 0 ==> x == y;
    for j := 1 to 7
      invariant x == Upto(p, j) && y == Upto(q, j)
      invariant k < j ==> OneApart(x, y)
      invariant k >= j ==> x == y
    {
      if j == k { OneApartLast(x, p[j], q[j]); }
      if k < j { OneApartFirst(x, y, p[j]); }
      x, y := x + p[j], y + q[j];
    }
    SevenUpto(p);
    SevenUpto(q);
  }

  function Upto(p: seq<seq<string>>, j: nat): seq<string>
    requires 1 <= j <= |p|
  {
    if j == 1 then p[0] else Upto(p, j - 1) + p[j - 1]
  }

  lemma SevenUpto(p: seq<seq<string>>)
    requires |p| == 7
    ensures Upto(p, 7) == p[0] + p[1] + p[2] + p[3] + p[4] + p[5] + p[6]
  {
    assert Upto(p, 2) == p[0] + p[1];
    assert Upto(p, 3) == Upto(p, 2) + p[2];
    assert Upto(p, 4) == Upto(p, 3) + p[3];
    assert Upto(p, 5) == Upto(p, 4) + p[4];
    assert Upto(p, 6) == Upto(p, 5) + p[5];
  }

  ghost function Seven(m: WorkloadData): seq<seq<string>>
    requires m.MachineData?
  {
    [Flat(m.interfaces, InterfaceParts), SeedParts(m.myceliumIp), [Decimal(m.size), Decimal(m.cpu), Decimal(m.memory)],
     Flat(m.mounts, MountParts), [m.entrypoint], Flat(Pairs(m.env), PairParts), m.gpu]
  }

  lemma MachineShows(m: WorkloadData, n: WorkloadData)
    requires m.MachineData? && n.MachineData? && MachinesApart(m, n) && m.flist == n.flist
    ensures OneApart(MachineParts(m), MachineParts(n))
  {
    hide MachineParts, InterfacesApart, MountsApart, EnvApart, SeedsApart, OneApart;
    if n == m.(interfaces := n.interfaces) && InterfacesApart(m.interfaces, n.interfaces) {
      NewInterfacesShow(m, n);
    } else if n == m.(myceliumIp := n.myceliumIp) && SeedsApart(m.myceliumIp, n.myceliumIp) {
      NewSeedShows(m, n);
    } else if n == m.(mounts := n.mounts) && MountsApart(m.mounts, n.mounts) {
      NewMountsShow(m, n);
    } else if n == m.(entrypoint := n.entrypoint) && n.entrypoint != m.entrypoint {
      NewEntrypointShows(m, n);
    } else if n == m.(env := n.env) && EnvApart(m.env, n.env) {
      NewEnvShows(m, n);
    } else if n == m.(gpu := n.gpu) && OneApart(m.gpu, n.gpu) {
      NewGpuShows(m, n);
    } else {
      CapacityShows(m, n);
    }
  }

  lemma NewInterfacesShow(m: WorkloadData, n: WorkloadData)
    requires m.MachineData? && n.MachineData?
    requires n == m.(interfaces := n.interfaces) && InterfacesApart(m.interfaces, n.interfaces)
    ensures OneApart(MachineParts(m), MachineParts(n))
  {
    hide Decimal, Flat, Pairs, SeedParts, InterfacesApart, OneApart, MachineParts;
    InterfacesShow(m.interfaces, n.interfaces);
    ListShows(m, n, 0);
  }

  lemma NewSeedShows(m: WorkloadData, n: WorkloadData)
    requires m.MachineData? && n.MachineData?
    requires n == m.(myceliumIp := n.myceliumIp) && SeedsApart(m.myceliumIp, n.myceliumIp)
    ensures OneApart(MachineParts(m), MachineParts(n))
  {
    hide Decimal, Flat, Pairs, SeedParts, SeedsApart, OneApart, MachineParts;
    SeedsShow(m.myceliumIp, n.myceliumIp);
    ListShows(m, n, 1);
  }

  lemma NewMountsShow(m: WorkloadData, n: WorkloadData)
    requires m.MachineData? && n.MachineData?
    requires n == m.(mounts := n.mounts) && MountsApart(m.mounts, n.mounts)
    ensures OneApart(MachineParts(m), MachineParts(n))
  {
    hide Decimal, Flat, Pairs, SeedParts, MountsApart, OneApart, MachineParts;
    MountsShow(m.mounts, n.mounts);
    ListShows(m, n, 3);
  }

  lemma NewEntrypointShows(m: WorkloadData, n: WorkloadData)
    requires m.MachineData? && n.MachineData?
    requires n == m.(entrypoint := n.entrypoint) && n.entrypoint != m.entrypoint
    ensures OneApart(MachineParts(m), MachineParts(n))
  {
    hide Decimal, Flat, Pairs, SeedParts, OneApart, MachineParts;
    OneItem([], m.entrypoint, n.entrypoint, []);
    assert [] + [m.entrypoint] + [] == [m.entrypoint] && [] + [n.entrypoint] + [] == [n.entrypoint];
    ListShows(m, n, 4);
  }

  lemma NewEnvShows(m: WorkloadData, n: WorkloadData)
    requires m.MachineData? && n.MachineData?
    requires n == m.(env := n.env) && EnvApart(m.env, n.env)
    ensures OneApart(MachineParts(m), MachineParts(n))
  {
    hide Decimal, Flat, Pairs, SeedParts, EnvApart, OneApart, MachineParts;
    EnvShows(m.env, n.env);
    ListShows(m, n, 5);
  }

  lemma NewGpuShows(m: WorkloadData, n: WorkloadData)
    requires m.MachineData? && n.MachineData?
    requires n == m.(gpu := n.gpu) && OneApart(m.gpu, n.gpu)
    ensures OneApart(MachineParts(m), MachineParts(n))
  {
    hide Decimal, Flat, Pairs, SeedParts, OneApart, MachineParts;
    ListShows(m, n, 6);
  }

  lemma ListShows(m: WorkloadData, n: WorkloadData, k: nat)
    requires m.MachineData? && n.MachineData? && k < 7 && OneApart(Seven(m)[k], Seven(n)[k])
    requires forall j :: 0 <= j < 7 && j != k ==> Seven(m)[j] == Seven(n)[j]
    ensures OneApart(MachineParts(m), MachineParts(n))
  {
    hide Decimal, Flat, Pairs, SeedParts, OneApart;
    SevenApart(Seven(m), Seven(n), k);
  }

  lemma CapacityShows(m: WorkloadData, n: WorkloadData)
    requires m.MachineData? && n.MachineData?
    requires || (n == m.(size := n.size) && n.size != m.size) || (n == m.(cpu := n.cpu) && n.cpu != m.cpu)
             || (n == m.(memory := n.memory) && n.memory != m.memory)
    ensures OneApart(MachineParts(m), MachineParts(n))
  {
    NumbersDiffer(m.size, n.size);
    NumbersDiffer(m.cpu, n.cpu);
    NumbersDiffer(m.memory, n.memory);
    hide Decimal, Flat, Pairs, SeedParts, OneApart, MachineParts;
    ThreeApart(Seven(m)[2], Seven(n)[2]);
    ListShows(m, n, 2);
  }

  lemma DataShows(kind: string, d: WorkloadData, e: WorkloadData)
    requires DataApart(kind, d, e)
    ensures OneApart(DataParts(kind, d).value, DataParts(kind, e).value)
  {
    hide MachinesApart, NetworksApart, MachineParts, KeysApart, KeyParts, OneApart, Decimal, BoolText;
    if kind == "zmachine-light" {
      MachineHeadShows(d, e, [d.flist], [e.flist]);
    } else if kind == "zmachine" {
      TruthsDiffer(d.planetary, e.planetary);
      MachineHeadShows(d, e, [d.flist, d.publicIp, BoolText(d.planetary)],
                       [e.flist, e.publicIp, BoolText(e.planetary)]);
    } else if kind == "network" {
      NetworkShows(d, e);
    } else if kind == "network-light" {
      var p, q := ["<nil>", d.subnet, "0"], ["<nil>", e.subnet, "0"];
      if d.subnet != e.subnet {
        ThreeApart(p, q);
        OneApartFirst(p, q, KeyParts(d.lightMycelium));
      } else {
        KeysShow(d.lightMycelium, e.lightMycelium);
        OneApartLast(p, KeyParts(d.lightMycelium), KeyParts(e.lightMycelium));
      }
    } else if kind == "volume" {
      NumbersDiffer(d.volumeSize.value, e.volumeSize.value);
      OneItem([], Decimal(d.volumeSize.value), Decimal(e.volumeSize.value), []);
      assert forall x: string :: [] + [x] + [] == [x];
    } else if kind == "ip" {
      TruthsDiffer(d.v4, e.v4);
      TruthsDiffer(d.v6, e.v6);
      TwoApart(DataParts(kind, d).value, DataParts(kind, e).value);
    } else if kind == "gateway-name-proxy" {
      GatewayShows(d.gatewayName, d.nameTls, d.nameBackends, e.gatewayName, e.nameTls, e.nameBackends);
    } else {
      GatewayShows(d.fqdn, d.fqdnTls, d.fqdnBackends, e.fqdn, e.fqdnTls, e.fqdnBackends);
    }
  }

  lemma MachineHeadShows(d: WorkloadData, e: WorkloadData, p: seq<string>, q: seq<string>)
    requires d.MachineData? && e.MachineData?
    requires || (p == [d.flist] && q == [e.flist] && MachinesApart(d, e))
             || (&& p == [d.flist, d.publicIp, BoolText(d.planetary)]
                 && q == [e.flist, e.publicIp, BoolText(e.planetary)]
                 && (|| MachinesApart(d, e)
                     || (e == d.(publicIp := e.publicIp) && e.publicIp != d.publicIp)
                     || (e == d.(planetary := e.planetary) && e.planetary != d.planetary)))
    ensures OneApart(p + MachineParts(d), q + MachineParts(e))
  {
    if MachinesApart(d, e) && d.flist == e.flist {
      hide MachinesApart, MachineParts, OneApart, BoolText;
      MachineShows(d, e);
      MachineHeadSame(d, e);
      OneApartLast(p, MachineParts(d), MachineParts(e));
    } else {
      SameParts(d, e);
      TruthsDiffer(d.planetary, e.planetary);
      hide MachineParts, BoolText, OneApart;
      if |p| == 1 {
        OneItem([], d.flist, e.flist, []);
        assert [] + [d.flist] + [] == p && [] + [e.flist] + [] == q;
      } else {
        ThreeApart(p, q);
      }
      OneApartFirst(p, q, MachineParts(d));
    }
  }

  lemma MachineHeadSame(d: WorkloadData, e: WorkloadData)
    requires d.MachineData? && e.MachineData? && MachinesApart(d, e)
    ensures e.publicIp == d.publicIp && e.planetary == d.planetary
  {
  }

  lemma SameParts(d: WorkloadData, e: WorkloadData)
    requires d.MachineData? && e.MachineData?
    requires e == d.(flist := e.flist, publicIp := e.publicIp, planetary := e.planetary)
    ensures MachineParts(d) == MachineParts(e)
  {
    hide Decimal, Flat, Pairs, SeedParts;
  }

  lemma GatewayShows(name: string, tls: bool, backends: seq<string>, name': string, tls': bool, backends': seq<string>)
    requires || (name != name' && tls == tls' && backends == backends')
             || (name == name' && tls != tls' && backends == backends')
             || (name == name' && tls == tls' && OneApart(backends, backends'))
    ensures OneApart([name, BoolText(tls)] + backends, [name', BoolText(tls')] + backends')
  {
    TruthsDiffer(tls, tls');
    hide BoolText;
    if OneApart(backends, backends') && name == name' && tls == tls' {
      OneApartLast([name, BoolText(tls)], backends, backends');
    } else {
      TwoApart([name, BoolText(tls)], [name', BoolText(tls')]);
      OneApartFirst([name, BoolText(tls)], [name', BoolText(tls')], backends);
    }
  }

  lemma NetworkShows(d: WorkloadData, e: WorkloadData)
    requires d.NetworkData? && e.NetworkData? && NetworksApart(d, e)
    ensures OneApart([d.ipRange, d.netSubnet, d.wireguardKey, Decimal(d.wireguardPort)] + d.wireguardPeers
                     + KeyParts(d.mycelium),
                     [e.ipRange, e.netSubnet, e.wireguardKey, Decimal(e.wireguardPort)] + e.wireguardPeers
                     + KeyParts(e.mycelium))
  {
    NumbersDiffer(d.wireguardPort, e.wireguardPort);
    hide KeysApart, KeyParts, OneApart, Decimal;
    var p, q := [d.ipRange, d.netSubnet, d.wireguardKey, Decimal(d.wireguardPort)],
                [e.ipRange, e.netSubnet, e.wireguardKey, Decimal(e.wireguardPort)];
    if p != q {
      ItemApart(p, q, if d.ipRange != e.ipRange then 0 else if d.netSubnet != e.netSubnet then 1
                      else if d.wireguardKey != e.wireguardKey then 2 else 3);
      ListsShow(p, q, d.wireguardPeers, e.wireguardPeers, KeyParts(d.mycelium), KeyParts(e.mycelium));
    } else if KeysApart(d.mycelium, e.mycelium) && e == d.(mycelium := e.mycelium) {
      KeysShow(d.mycelium, e.mycelium);
      ListsShow(p, q, d.wireguardPeers, e.wireguardPeers, KeyParts(d.mycelium), KeyParts(e.mycelium));
    } else {
      ListsShow(p, q, d.wireguardPeers, e.wireguardPeers, KeyParts(d.mycelium), KeyParts(e.mycelium));
    }
  }

  lemma ListsShow(p: seq<string>, q: seq<string>, r: seq<string>, s: seq<string>, t: seq<string>, u: seq<string>)
    requires || (OneApart(p, q) && r == s && t == u) || (p == q && OneApart(r, s) && t == u)
             || (p == q && r == s && OneApart(t, u))
    ensures OneApart(p + r + t, q + s + u)
  {
    hide OneApart;
    if OneApart(p, q) && r == s && t == u {
      OneApartFirst(p, q, r);
      OneApartFirst(p + r, q + s, t);
    } else if p == q && OneApart(r, s) && t == u {
      OneApartLast(p, r, s);
      OneApartFirst(p + r, q + s, t);
    } else {
      OneApartLast(p + r, t, u);
    }
  }

  lemma ItemApart(p: seq<string>, q: seq<string>, i: int)
    requires |p| == |q| && 0 <= i < |p| && p[i] != q[i] && forall j :: 0 <= j < |p| && j != i ==> p[j] == q[j]
    ensures OneApart(p, q)
  {
    assert ApartAt(p, q, i);
  }

  lemma WorkloadShows(w: DeployWorkload, v: DeployWorkload)
    requires WorkloadApart(w, v)
    ensures OneApart(WorkloadParts(w), WorkloadParts(v))
  {
    NumbersDiffer(w.version, v.version);
    hide DataApart, DataParts, OneApart, Decimal;
    var p, q := [Decimal(w.version), w.name, w.kind, w.metadata, w.description],
                [Decimal(v.version), v.name, v.kind, v.metadata, v.description];
    if p != q {
      ItemApart(p, q, if w.version != v.version then 0 else if w.name != v.name then 1
                      else if w.metadata != v.metadata then 3 else 4);
      OneApartFirst(p, q, DataParts(w.kind, w.data).GetOr([]));
    } else {
      DataShows(w.kind, w.data, v.data);
      IsData(w.kind, w.data, v.data);
      OneApartLast(p, DataParts(w.kind, w.data).value, DataParts(v.kind, v.data).value);
    }
  }

  lemma IsData(kind: string, d: WorkloadData, e: WorkloadData)
    requires DataApart(kind, d, e)
    ensures DataParts(kind, d).Some? && DataParts(kind, e).Some?
  {
  }

  lemma WorkloadsShow(p: seq<DeployWorkload>, q: seq<DeployWorkload>)
    requires WorkloadsApart(p, q)
    ensures var f := (w: DeployWorkload) => WorkloadParts(w);
            OneApart(Flat(p, f), Flat(q, f))
  {
    hide WorkloadApart, WorkloadParts, OneApart;
    var i :| ApartAt(p, q, i) && WorkloadApart(p[i], q[i]);
    WorkloadShows(p[i], q[i]);
    FlatOneApart(p, q, i, (w: DeployWorkload) => WorkloadParts(w));
  }

  lemma DeploymentShows(d: DeployDeployment, e: DeployDeployment)
    requires DeploymentsApart(d, e)
    ensures OneApart(AllParts(d), AllParts(e))
  {
    NumbersDiffer(d.version, e.version);
    NumbersDiffer(d.twinId, e.twinId);
    SignedDiffer(d.expiration, e.expiration);
    NumbersDiffer(d.weightRequired, e.weightRequired);
    hide Decimal, SignedDecimal, Flat, WorkloadParts, OneApart, WorkloadsApart, RequestsApart;
    var f := (w: DeployWorkload) => WorkloadParts(w);
    var head, head' := [Decimal(d.version), Decimal(d.twinId), d.metadata, d.description, SignedDecimal(d.expiration)],
                       [Decimal(e.version), Decimal(e.twinId), e.metadata, e.description, SignedDecimal(e.expiration)];
    var tail, tail' := [Decimal(d.weightRequired), d.signatureStyle], [Decimal(e.weightRequired), e.signatureStyle];
    var ws, rs := Flat(d.workloads, f), Flat(d.requests, RequestParts);
    if head != head' {
      ItemApart(head, head', if d.version != e.version then 0 else if d.twinId != e.twinId then 1
                             else if d.metadata != e.metadata then 2 else if d.description != e.description then 3
                             else 4);
      OneApartFirst(head, head', ws);
      OneApartFirst(head + ws, head' + ws, rs);
      OneApartFirst(head + ws + rs, head' + ws + rs, tail);
    } else if tail != tail' {
      TwoApart(tail, tail');
      OneApartLast(head + ws + rs, tail, tail');
    } else if e == d.(requests := e.requests) && RequestsApart(d.requests, e.requests) {
      RequestsShow(d.requests, e.requests);
      OneApartLast(head + ws, rs, Flat(e.requests, RequestParts));
      OneApartFirst(head + ws + rs, head + ws + Flat(e.requests, RequestParts), tail);
    } else {
      WorkloadsShow(d.workloads, e.workloads);
      OneApartLast(head, ws, Flat(e.workloads, f));
      OneApartFirst(head + ws, head + Flat(e.workloads, f), rs);
      OneApartFirst(head + ws + rs, head + Flat(e.workloads, f) + rs, tail);
    }
  }

  // ---- What the hash covers ----

  /** Deployments that differ in one hashed field - a version, a name, one environment value, the entry point, the
      cores, a mount, a size, a port, a request - have different challenges. */
  lemma EveryFieldCounts(d: DeployDeployment, e: DeployDeployment)
    requires DeploymentsApart(d, e) && Challenge(d).Ok? && Challenge(e).Ok?
    ensures Challenge(d).value != Challenge(e).value
  {
    hide DeploymentsApart, Challenge, AllParts, OneApart, Cat;
    DeploymentShows(d, e);
    OneApartShows(AllParts(d), AllParts(e));
    ChallengeIsItsParts(d);
    ChallengeIsItsParts(e);
  }

  /** Two fields at once may cancel, because nothing separates the parts. */
  lemma TwoFieldsMayCancel()
    ensures var d := NewDeployment(1, "ab", []);
            var e := d.(metadata := "a", description := "b");
            d != e && Challenge(d).Ok? && Challenge(d) == Challenge(e)
  {
    var d := NewDeployment(1, "ab", []);
    var e := d.(metadata := "a", description := "b");
    hide Decimal, PushRequests;
    var v, t := Decimal(0), Decimal(1);
    assert "" + v + t + "ab" + "" + SignedDecimal(0) == "" + v + t + "a" + "b" + SignedDecimal(0);
  }

  /** The `corex` flag of a machine is not hashed. */
  lemma CorexIsNotHashed(out: string, w: DeployWorkload, corex: bool)
    requires w.data.MachineData?
    ensures WorkloadChallenge(out, w.(data := w.data.(corex := corex))) == WorkloadChallenge(out, w)
  {
    hide PushInterfaces, PushMounts, PushEnv, PushAll, Decimal, BoolText;
  }
}
