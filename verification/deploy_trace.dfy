/** What a deployment request does to the outside world: the events, the chain they act on, and the
    specification of each phase, attempt and failover run as a set of traces. */
module DeployTrace {
  import opened GridErrors
  import opened Text
  import opened HexCodec
  import opened Deployments
  import opened Addresses
  import opened Builders
  import opened Ports

  // ---- Node replies ----

  datatype ReplyItem = Item(workload: DeployWorkload) | Malformed

  /** A JSON reply: a list, an object with or without a workload list, or anything else. */
  datatype Payload = ListReply(items: seq<ReplyItem>) | ObjectReply(workloads: Option<seq<ReplyItem>>) | OtherReply

  const BAD_WORKLOAD := Codec("workload")

  /** `extract_workloads`. */
  function ExtractWorkloads(p: Payload): Result<seq<DeployWorkload>> {
    var items := match p
      case ListReply(items) => items
      case ObjectReply(workloads) => workloads.GetOr([])
      case OtherReply => [];
    if Malformed in items then Err(BAD_WORKLOAD)
    else Ok(seq(|items|, i requires 0 <= i < |items| && items[i].Item? => items[i].workload))
  }

  predicate Terminal(state: string) {
    state == "error" || state == "deleted" || state == "paused" || state == "unchanged"
  }

  function OkNames(ws: seq<DeployWorkload>): set<string> {
    set w | w in ws && w.result.state == "ok" :: w.name
  }

  /** The settle rule: some workload reached a terminal state, or exactly one distinct name is ok. */
  predicate Settled(ws: seq<DeployWorkload>) {
    || (exists w :: w in ws && Terminal(w.result.state))
    || (ws != [] && |OkNames(ws)| == 1)
  }

  /** The error replies after which a poll is repeated. */
  predicate Retryable(command: string, e: GridError) {
    && e.Backend?
    && (|| Contains(e.message, "deployment not found")
        || Contains(e.message, "contract not found")
        || Contains(e.message, "relay closed before " + command + " response")
        || Contains(e.message, "rmb timeout for " + command))
  }

  const GET := "zos.deployment.get"
  const CHANGES := "zos.deployment.changes"

  // ---- Events and the chain ----

  datatype LookupReply = Unreachable(error: GridError) | BadStatus | BadBody(error: GridError) | Listed(ids: seq<nat>)

  datatype Event =
    /** Submission of a node contract; `id` is 0 when nothing was anchored, `ok` is what the client saw. */
    | Created(node: nat, hash: string, data: string, ips: nat, id: nat, ok: bool)
    | Looked(node: nat, hash: string, reply: LookupReply)
    | Sent(twin: nat, deployment: DeployDeployment, sent: Result<()>)
    | Got(twin: nat, id: nat, got: Result<Payload>)
    | Polled(twin: nat, id: nat, got: Result<Payload>)
    | Dropped(twin: nat, id: nat, got: Result<Payload>)
    | AskedPorts(twin: nat, ports: Result<seq<nat>>)
    /** Submission of a cancellation; `done` says whether the chain cancelled, `ok` what the client saw. */
    | Cancelled(id: nat, done: bool, ok: bool)
    | Slept(ms: nat)

  datatype Contract = Contract(node: nat, hash: string, live: bool)
  type Chain = map<nat, Contract>

  function Step(c: Chain, e: Event): Chain {
    match e
    case Created(node, hash, _, _, id, _) => if id != 0 then c[id := Contract(node, hash, true)] else c
    case Cancelled(id, done, _) => if done && id in c then c[id := c[id].(live := false)] else c
    case _ => c
  }

  /** What the chain guarantees: ids are never reused, and success means it happened. */
  predicate Admissible(c: Chain, e: Event) {
    match e
    case Created(_, _, _, _, id, ok) => (id != 0 ==> id !in c) && (ok ==> id != 0)
    case Cancelled(id, done, ok) => (ok ==> done) && (done ==> id in c)
    case _ => true
  }

  function Replay(c: Chain, tr: seq<Event>): Chain
    decreases |tr|
  {
    if tr == [] then c else Step(Replay(c, tr[..|tr| - 1]), tr[|tr| - 1])
  }

  /** From chain `c`, the trace can happen and leads to `after`. */
  ghost predicate Run(c: Chain, tr: seq<Event>, after: Chain)
    decreases |tr|
  {
    if tr == [] then c == after
    else
      var before := Replay(c, tr[..|tr| - 1]);
      Run(c, tr[..|tr| - 1], before) && Admissible(before, tr[|tr| - 1]) && after == Step(before, tr[|tr| - 1])
  }

  lemma RunPush(c: Chain, tr: seq<Event>, mid: Chain, e: Event)
    requires Run(c, tr, mid) && Admissible(mid, e)
    ensures Run(c, tr + [e], Step(mid, e))
  {
    RunReplays(c, tr, mid);
    assert (tr + [e])[..|tr|] == tr;
  }

  lemma {:induction false} RunReplays(c: Chain, tr: seq<Event>, after: Chain)
    requires Run(c, tr, after)
    ensures Replay(c, tr) == after
  {
  }

  lemma {:induction false} RunAppend(c: Chain, a: seq<Event>, mid: Chain, b: seq<Event>, after: Chain)
    requires Run(c, a, mid) && Run(mid, b, after)
    ensures Run(c, a + b, after)
    decreases |b|
  {
    if b == [] {
      assert a + b == a;
    } else {
      var n := |b| - 1;
      var before := Replay(mid, b[..n]);
      RunAppend(c, a, mid, b[..n], before);
      RunPush(c, a + b[..n], before, b[n]);
      assert a + b == (a + b[..n]) + [b[n]];
    }
  }

  predicate TouchesChain(e: Event) {
    e.Created? || e.Cancelled?
  }

  /** Lookups, calls and sleeps leave the chain alone. */
  lemma {:induction false} QuietRun(c: Chain, tr: seq<Event>)
    requires forall e :: e in tr ==> !TouchesChain(e)
    ensures Run(c, tr, c)
    decreases |tr|
  {
    if tr != [] {
      var n := |tr| - 1;
      assert !TouchesChain(tr[n]);
      QuietRun(c, tr[..n]);
      RunPush(c, tr[..n], c, tr[n]);
      assert tr == tr[..n] + [tr[n]];
    }
  }

  function Live(c: Chain): set<nat> {
    set id | id in c && c[id].live
  }

  predicate Hit(e: Event) {
    e.Looked? && e.reply.Listed? && e.reply.ids != []
  }

  function Count(tr: seq<Event>, p: Event -> bool): nat
    decreases |tr|
  {
    if tr == [] then 0 else Count(tr[..|tr| - 1], p) + (if p(tr[|tr| - 1]) then 1 else 0)
  }

  predicate IsLooked(e: Event) { e.Looked? }
  predicate IsSent(e: Event) { e.Sent? }
  predicate IsGot(e: Event) { e.Got? }
  predicate IsPolled(e: Event) { e.Polled? }

  lemma CountPush(tr: seq<Event>, e: Event, p: Event -> bool)
    ensures Count(tr + [e], p) == Count(tr, p) + if p(e) then 1 else 0
  {
    assert (tr + [e])[..|tr|] == tr;
  }

  lemma {:induction false} CountAppend(a: seq<Event>, b: seq<Event>, p: Event -> bool)
    ensures Count(a + b, p) == Count(a, p) + Count(b, p)
    decreases |b|
  {
    if b == [] {
      assert a + b == a;
    } else {
      assert (a + b)[..|a + b| - 1] == a + b[..|b| - 1];
      CountAppend(a, b[..|b| - 1], p);
    }
  }

  // ---- Phases ----

  predicate Confirms(e: Event) {
    || (e.Got? && e.got.Ok?)
    || (e.Sent? && e.sent.Err? && e.sent.error.Backend? && Contains(e.sent.error.message, "exists"))
  }

  predicate FatalGet(e: Event) {
    e.Got? && e.got.Err? && !Retryable(GET, e.got.error)
  }

  /** The replies that end the wait for workloads with an error: unreadable ones, and errors no poll repeats. */
  predicate Breaks(e: Event) {
    && (e.Got? || e.Polled?)
    && if e.got.Ok? then ExtractWorkloads(e.got.value).Err?
       else !Retryable(if e.Got? then GET else CHANGES, e.got.error)
  }

  function BreakError(e: Event): GridError
    requires Breaks(e)
  {
    if e.got.Ok? then ExtractWorkloads(e.got.value).error else e.got.error
  }

  predicate Settles(e: Event) {
    && (e.Got? || e.Polled?)
    && e.got.Ok?
    && ExtractWorkloads(e.got.value).Ok?
    && Settled(ExtractWorkloads(e.got.value).value)
  }

  /** A phase polls until some event decides it: the contract is listed, the deployment is visible,
      or the workloads have settled. */
  datatype Phase =
    | Looking(node: nat, hash: string)
    | Sending(twin: nat, d: DeployDeployment)
    | Settling(twin: nat, id: nat)
  {
    predicate Fits(e: Event) {
      || e.Slept?
      || match this
         case Looking(node, hash) => e.Looked? && e.node == node && e.hash == hash
         case Sending(twin, d) => || (e.Sent? && e.twin == twin && e.deployment == d)
                                  || (e.Got? && e.twin == twin && e.id == d.contractId)
         case Settling(twin, id) => (e.Got? || e.Polled?) && e.twin == twin && e.id == id
    }

    predicate Decides(e: Event) {
      match this
      case Looking(_, _) => Hit(e)
      case Sending(_, _) => Confirms(e)
      case Settling(_, _) => Settles(e)
    }
  }

  /** Events of the phase, none of them decisive. */
  ghost predicate Undecided(p: Phase, tr: seq<Event>)
    decreases |tr|
  {
    || tr == []
    || (Undecided(p, tr[..|tr| - 1]) && p.Fits(tr[|tr| - 1]) && !p.Decides(tr[|tr| - 1]))
  }

  /** A whole phase: it ends with its first decisive event exactly when it succeeds. */
  ghost predicate PhaseSpec(p: Phase, tr: seq<Event>, ok: bool) {
    && tr != []
    && Undecided(p, tr[..|tr| - 1])
    && p.Fits(tr[|tr| - 1])
    && (ok <==> p.Decides(tr[|tr| - 1]))
  }

  lemma UndecidedPush(p: Phase, tr: seq<Event>, e: Event)
    requires Undecided(p, tr) && p.Fits(e)
    ensures !p.Decides(e) ==> Undecided(p, tr + [e])
    ensures PhaseSpec(p, tr + [e], p.Decides(e))
  {
    assert (tr + [e])[..|tr|] == tr;
  }

  lemma {:induction false} UndecidedAppend(p: Phase, a: seq<Event>, b: seq<Event>)
    requires Undecided(p, a) && Undecided(p, b)
    ensures Undecided(p, a + b)
    decreases |b|
  {
    if b == [] {
      assert a + b == a;
    } else {
      assert (a + b)[..|a + b| - 1] == a + b[..|b| - 1];
      UndecidedAppend(p, a, b[..|b| - 1]);
    }
  }

  lemma {:induction false} UndecidedEvents(p: Phase, tr: seq<Event>, i: nat)
    requires Undecided(p, tr) && i < |tr|
    ensures p.Fits(tr[i]) && !p.Decides(tr[i])
    decreases |tr|
  {
    if i < |tr| - 1 { UndecidedEvents(p, tr[..|tr| - 1], i); }
  }

  /** Every event of a phase belongs to it, and none before the last is decisive. */
  lemma PhaseEvents(p: Phase, tr: seq<Event>, ok: bool, i: nat)
    requires PhaseSpec(p, tr, ok) && i < |tr|
    ensures p.Fits(tr[i]) && (p.Decides(tr[i]) ==> ok && i == |tr| - 1)
  {
    if i < |tr| - 1 { UndecidedEvents(p, tr[..|tr| - 1], i); }
  }

  /** Polling for the contract: the first lookup that lists anything decides. */
  ghost predicate WaitSpec(node: nat, hash: string, tr: seq<Event>, r: Result<nat>) {
    && PhaseSpec(Looking(node, hash), tr, r.Ok?)
    && (r.Ok? ==> r.value == tr[|tr| - 1].reply.ids[0])
    && Count(tr, IsLooked) <= 46
  }

  /** Sending a deployment: success means the node showed the contract's deployment or said that it
      exists; the deploy call's own success never suffices. */
  ghost predicate ConfirmSpec(twin: nat, d: DeployDeployment, tr: seq<Event>, r: Result<()>) {
    && PhaseSpec(Sending(twin, d), tr, r.Ok?)
    && tr[0].Sent?
    && (forall i :: 0 <= i < |tr| - 1 ==> !FatalGet(tr[i]))
    && (r.Err? ==> if FatalGet(tr[|tr| - 1]) then r.error == tr[|tr| - 1].got.error else Count(tr, IsSent) == 10)
    && Count(tr, IsSent) <= 10
    && Count(tr, IsGot) <= 16 * Count(tr, IsSent)
  }

  /** Waiting for workloads: the first settled answer is the result, the first breaking one the error; a
      wait that ends with neither timed out. */
  ghost predicate SettleSpec(twin: nat, id: nat, tr: seq<Event>, r: Result<seq<DeployWorkload>>) {
    && PhaseSpec(Settling(twin, id), tr, r.Ok?)
    && (forall i :: 0 <= i < |tr| - 1 ==> !Breaks(tr[i]))
    && !tr[|tr| - 1].Slept?
    && (r.Err? ==> if Breaks(tr[|tr| - 1]) then r.error == BreakError(tr[|tr| - 1]) else r.error.Backend?)
    && (r.Ok? ==> ExtractWorkloads(tr[|tr| - 1].got.value) == r)
    && Count(tr, IsPolled) <= 91
    && Count(tr, IsGot) <= 91
  }

  // ---- One contract: anchor, find, send, settle ----

  datatype Leg =
    | Anchor(deployment: DeployDeployment, hash: string, create: Event)
    | Wait(trace: seq<Event>, found: Result<nat>)
    | Confirm(trace: seq<Event>, confirmed: Result<()>)
    | Settle(trace: seq<Event>, settled: Result<seq<DeployWorkload>>)
  {
    predicate Good() {
      match this
      case Anchor(_, _, create) => create.Created? && create.ok
      case Wait(_, found) => found.Ok?
      case Confirm(_, confirmed) => confirmed.Ok?
      case Settle(_, settled) => settled.Ok?
    }

    function Events(): seq<Event> {
      match this
      case Anchor(_, _, create) => [create]
      case Wait(trace, _) => trace
      case Confirm(trace, _) => trace
      case Settle(trace, _) => trace
    }
  }

  /** The legs one contract got through; the empty list when signing failed. */
  type Stage = seq<Leg>

  /** The deployment has that hash and carries one signature, over it. */
  ghost predicate SignedOver(c: Crypto, signer: nat, d: DeployDeployment, hash: string) {
    && HashHex(c, d) == Ok(hash)
    && d.signatures == [Signature(signer, Encode(c.sign(HashBytes(c, d).value)), "sr25519")]
  }

  /** The contract is anchored under the hash of the signed deployment. */
  ghost predicate AnchorSpec(c: Crypto, signer: nat, node: nat, l: Leg) {
    && l.Anchor?
    && SignedOver(c, signer, l.deployment, l.hash)
    && l.create.Created?
    && l.create.node == node && l.create.hash == l.hash
    && l.create.data == l.deployment.metadata && l.create.ips == PublicIpCount(l.deployment.workloads)
  }

  /** Leg `n` is the right one after the legs before it. */
  ghost predicate Follows(node: nat, twin: nat, s: Stage, n: nat)
    requires 0 < n < |s|
  {
    match n
    case 1 => s[0].Anchor? && s[1].Wait? && WaitSpec(node, s[0].hash, s[1].trace, s[1].found)
    case 2 => s[0].Anchor? && s[1].Wait? && s[1].found.Ok? && s[2].Confirm?
              && ConfirmSpec(twin, s[0].deployment.(contractId := s[1].found.value), s[2].trace, s[2].confirmed)
    case 3 => s[1].Wait? && s[1].found.Ok? && s[3].Settle?
              && SettleSpec(twin, s[1].found.value, s[3].trace, s[3].settled)
    case _ => false
  }

  /** Each leg is taken only after the one before it was good. */
  ghost predicate LegSpec(c: Crypto, signer: nat, node: nat, twin: nat, s: Stage, n: nat)
    requires n < |s|
  {
    if n == 0 then AnchorSpec(c, signer, node, s[0]) else s[n - 1].Good() && Follows(node, twin, s, n)
  }

  ghost predicate StageSpec(c: Crypto, signer: nat, node: nat, twin: nat, s: Stage) {
    && s != []
    && forall n {:trigger LegSpec(c, signer, node, twin, s, n)} ::
         0 <= n < |s| ==> LegSpec(c, signer, node, twin, s, n)
  }

  /** A stage goes on until a leg fails or the workloads have settled. */
  predicate Finished(s: Stage) {
    s == [] || |s| == 4 || !s[|s| - 1].Good()
  }

  predicate Complete(s: Stage) {
    |s| == 4 && s[0].Anchor? && s[1].Wait? && s[1].found.Ok? && s[3].Settle? && s[3].settled.Ok?
  }

  function StageEvents(s: Stage): seq<Event>
    decreases |s|
  {
    if s == [] then [] else StageEvents(s[..|s| - 1]) + s[|s| - 1].Events()
  }

  /** The ids pushed on `created`: those `wait_for_contract` returned. */
  function StageIds(s: Stage): seq<nat> {
    if |s| > 1 && s[1].Wait? && s[1].found.Ok? then [s[1].found.value] else []
  }

  lemma StagePush(c: Crypto, signer: nat, node: nat, twin: nat, s: Stage, l: Leg)
    requires if s == [] then AnchorSpec(c, signer, node, l)
             else StageSpec(c, signer, node, twin, s) && s[|s| - 1].Good() && Follows(node, twin, s + [l], |s|)
    ensures StageSpec(c, signer, node, twin, s + [l])
    ensures StageEvents(s + [l]) == StageEvents(s) + l.Events()
  {
    hide AnchorSpec, WaitSpec, ConfirmSpec, SettleSpec;
    var longer := s + [l];
    assert longer[..|s|] == s;
    forall n | 0 <= n < |longer| ensures LegSpec(c, signer, node, twin, longer, n) {
      if n < |s| { assert LegSpec(c, signer, node, twin, s, n); }
    }
  }

  /** A stage starts by anchoring, ... */
  lemma StageAnchors(c: Crypto, signer: nat, node: nat, twin: nat, s: Stage)
    requires StageSpec(c, signer, node, twin, s)
    ensures 1 <= |s| <= 4 && AnchorSpec(c, signer, node, s[0])
  {
    hide AnchorSpec, WaitSpec, ConfirmSpec, SettleSpec;
    assert LegSpec(c, signer, node, twin, s, 0);
    assert |s| <= 4 || LegSpec(c, signer, node, twin, s, 4);
  }

  /** ... and every later leg follows a good one. */
  lemma StageFollows(c: Crypto, signer: nat, node: nat, twin: nat, s: Stage, n: nat)
    requires StageSpec(c, signer, node, twin, s) && 0 < n < |s|
    ensures s[n - 1].Good() && Follows(node, twin, s, n)
  {
    hide AnchorSpec, WaitSpec, ConfirmSpec, SettleSpec;
    assert LegSpec(c, signer, node, twin, s, n);
  }

  // ---- One attempt on one node ----

  datatype DeploymentOutcome = DeploymentOutcome(
    nodeId: nat, nodeTwinId: nat, networkName: string, networkContractId: nat, vmName: string, vmContractId: nat,
    vmIp: string, myceliumIp: string, publicIpv4: string, publicIpv6: string, consoleUrl: string)

  datatype NetworkLightSpec = NetworkLightSpec(name: Option<string>, subnet: Option<string>,
                                               myceliumKey: Option<seq<Byte>>)
  datatype FullNetworkSpec = FullNetworkSpec(name: Option<string>, ipRange: Option<string>, subnet: Option<string>,
                                             myceliumKey: Option<seq<Byte>>, wireguardKey: Option<string>,
                                             wireguardPort: Option<nat>)
  datatype Request =
    | LightRequest(lightNetwork: Option<NetworkLightSpec>, name: string, ip: string, lightVm: VmLightSpec)
    | FullRequest(network: Option<FullNetworkSpec>, name: string, ip: string, vm: VmSpec)
  {
    /** A missing specification stands for an existing network, given by `name` and `ip`. */
    predicate CreatesNetwork() {
      match this
      case LightRequest(network, _, _, _) => network.Some?
      case FullRequest(network, _, _, _) => network.Some?
    }

    /** Names and ranges the request leaves open are derived from the time in seconds. */
    function NetworkName(suffix: nat): string
      requires CreatesNetwork()
    {
      match this
      case LightRequest(Some(spec), _, _, _) => spec.name.GetOr("rust_net_light_" + Decimal(suffix))
      case FullRequest(Some(spec), _, _, _) => spec.name.GetOr("rust_net_" + Decimal(suffix))
    }

    function Subnet(suffix: nat): string
      requires CreatesNetwork()
    {
      match this
      case LightRequest(Some(spec), _, _, _) => spec.subnet.GetOr(DerivedRange(suffix, ".2.0/24"))
      case FullRequest(Some(spec), _, _, _) => spec.subnet.GetOr(DerivedRange(suffix, ".2.0/24"))
    }

    function MachineName(suffix: nat): string {
      match this
      case LightRequest(_, _, _, spec) => spec.name.GetOr("rust_vm_light_" + Decimal(suffix))
      case FullRequest(_, _, _, spec) => spec.name.GetOr("rust_vm_" + Decimal(suffix))
    }

    /** A port is asked of the node when a full network is created and none was given. */
    predicate AsksPort() {
      FullRequest? && network.Some? && network.value.wireguardPort.None?
    }
  }

  function DerivedRange(suffix: nat, rest: string): string {
    "10." + Decimal(10 + suffix % 180) + rest
  }

  datatype Attempt = Attempt(node: nat, twin: nat, suffix: nat, ports: seq<Event>, network: Stage,
                             info: Result<NetworkInfo>, vm: Stage, readback: seq<Event>, rollback: seq<Event>,
                             result: Result<DeploymentOutcome>)

  function BodyEvents(a: Attempt): seq<Event> {
    (a.ports + StageEvents(a.network)) + (StageEvents(a.vm) + a.readback)
  }

  function AttemptEvents(a: Attempt): seq<Event> {
    BodyEvents(a) + a.rollback
  }

  function AttemptIds(a: Attempt): seq<nat> {
    StageIds(a.network) + StageIds(a.vm)
  }

  /** The node delete and the chain cancel of one contract. */
  predicate TornDown(twin: nat, id: nat, tr: seq<Event>) {
    && |tr| == 2 && tr[0].Dropped? && tr[0].twin == twin && tr[0].id == id
    && tr[1].Cancelled? && tr[1].id == id
  }

  /** Tearing down: newest contract first, node delete before chain cancel, zero ids skipped. */
  ghost predicate RollbackSpec(twin: nat, ids: seq<nat>, tr: seq<Event>)
    decreases |ids|
  {
    if ids == [] then tr == []
    else
      var id, older := ids[|ids| - 1], ids[..|ids| - 1];
      if id == 0 then RollbackSpec(twin, older, tr)
      else
        && |tr| >= 2
        && tr[0].Dropped? && tr[0].twin == twin && tr[0].id == id
        && tr[1].Cancelled? && tr[1].id == id
        && RollbackSpec(twin, older, tr[2..])
  }

  /** The node's answer to the final read shows the machine, and no settled workload is in error. */
  predicate ReadsBack(vmName: string, readback: seq<Event>, settled: seq<DeployWorkload>) {
    && |readback| == 1 && readback[0].Got? && readback[0].got.Ok?
    && ExtractWorkloads(readback[0].got.value).Ok?
    && (exists w :: w in ExtractWorkloads(readback[0].got.value).value && w.name == vmName)
    && (forall w :: w in settled ==> w.result.state != "error")
  }

  function FindByName(ws: seq<DeployWorkload>, name: string): (r: Option<DeployWorkload>)
    ensures r.Some? <==> exists w :: w in ws && w.name == name
    ensures r.Some? ==> r.value in ws && r.value.name == name
  {
    if ws == [] then None
    else if ws[0].name == name then Some(ws[0])
    else FindByName(ws[1..], name)
  }

  function TextOf(data: map<string, ResultField>, key: string): string {
    if key in data && data[key].TextField? then data[key].text else ""
  }

  /** `extract_ip_value`: a text that is not empty, or the `ip` of an object even when that is empty. */
  function AddressOf(data: map<string, ResultField>, key: string): Option<string> {
    if key !in data then None
    else
      match data[key]
      case TextField(text) => if text != "" then Some(text) else None
      case ObjectField(ip) => ip
      case OtherField => None
  }

  /** `resolve_public_ips_from_workloads`. */
  function ResolvePublicIps(ws: seq<DeployWorkload>, name: string): (string, string) {
    match FindByName(ws, name + "ip")
    case None => ("", "")
    case Some(w) =>
      if w.result.state != "ok" && w.result.state != "paused" then ("", "")
      else
        var (v4, v6) := (AddressOf(w.result.data, "ip"), AddressOf(w.result.data, "ipv6"));
        (v4.GetOr(""), if v6.Some? then v6.value else AddressOf(w.result.data, "ip6").GetOr(""))
  }

  datatype NetworkInfo = NetworkInfo(name: string, vmIp: string, contractId: nat)

  /** What the request fixes is used as given. */
  predicate Given<T(==)>(wanted: Option<T>, used: T) {
    wanted.Some? ==> used == wanted.value
  }

  /** A deployment as built for a twin, whatever its signatures. */
  predicate BuiltAs(d: DeployDeployment, twin: nat, metadata: string, ws: seq<DeployWorkload>) {
    d == NewDeployment(twin, metadata, ws).(signatures := d.signatures)
  }

  /** The port a full network gets: the one given, or the node's least free one. */
  predicate PortChosen(wanted: Option<nat>, ports: seq<Event>, port: nat) {
    if wanted.Some? then port == wanted.value
    else |ports| == 1 && ports[0].AskedPorts? && ports[0].ports.Ok? && LeastFree(ports[0].ports.value, port)
  }

  /** The network's deployment is what the builder makes of the request. */
  ghost predicate NetworkBuilt(request: Request, signer: nat, suffix: nat, ports: seq<Event>, d: DeployDeployment)
    requires request.CreatesNetwork()
  {
    var name, subnet := request.NetworkName(suffix), request.Subnet(suffix);
    match request
    case LightRequest(Some(spec), _, _, _) =>
      exists key :: && Given(spec.myceliumKey, key)
                    && BuiltAs(d, signer, DeploymentMetadata(name, "network-light", "Network"),
                               [BuildNetworkLight(name, subnet, key)])
    case FullRequest(Some(spec), _, _, _) =>
      var ipRange := spec.ipRange.GetOr(DerivedRange(suffix, ".0.0/16"));
      exists key, port :: && Given(spec.wireguardKey, key) && PortChosen(spec.wireguardPort, ports, port)
                          && BuiltAs(d, signer, DeploymentMetadata(name, "network", "Network"),
                                     [BuildNetwork(name, ipRange, subnet, key, port, spec.myceliumKey)])
  }

  /** No network can be planned: the subnet has no room for the machine's address, or no port is free. */
  predicate PlanFails(request: Request, suffix: nat, ports: seq<Event>)
    requires request.CreatesNetwork()
  {
    || VmIpFromSubnet(request.Subnet(suffix)).Err?
    || (request.AsksPort() && |ports| == 1 && ports[0].AskedPorts?
        && (ports[0].ports.Err? || AllUsed(ports[0].ports.value)))
  }

  /** A network is to be created and its plan succeeds, with a port asked for where one is needed. */
  predicate Planned(request: Request, twin: nat, suffix: nat, ports: seq<Event>) {
    && request.CreatesNetwork() && !PlanFails(request, suffix, ports)
    && (ports == [] || (|ports| == 1 && ports[0].AskedPorts? && ports[0].twin == twin))
    && (ports != [] <==> request.AsksPort())
  }

  /** What the machine is told of the network created under `id`. */
  function PlannedNetwork(request: Request, suffix: nat, id: nat): NetworkInfo
    requires request.CreatesNetwork() && VmIpFromSubnet(request.Subnet(suffix)).Ok?
  {
    NetworkInfo(request.NetworkName(suffix), VmIpFromSubnet(request.Subnet(suffix)).value, id)
  }

  /** The machine's deployment is what the builder makes of the request, on the given network. */
  ghost predicate MachineBuilt(request: Request, signer: nat, network: NetworkInfo, suffix: nat, d: DeployDeployment) {
    var name := request.MachineName(suffix);
    match request
    case LightRequest(_, _, _, spec) =>
      exists seed :: && Given(spec.myceliumSeed, seed)
                     && BuiltAs(d, signer, DeploymentMetadata(name, "vm-light", name),
                                VmLightWorkloads(name, network.name, network.vmIp, spec, seed))
    case FullRequest(_, _, _, spec) =>
      BuiltAs(d, signer, DeploymentMetadata(name, "vm", name), VmWorkloads(name, network.name, network.vmIp, spec))
  }

  /** What a successful attempt reports, from the workloads of the final read. */
  function OutcomeOf(request: Request, node: nat, twin: nat, network: NetworkInfo, vmName: string, id: nat,
                     reported: seq<DeployWorkload>): DeploymentOutcome
    requires FindByName(reported, vmName).Some?
  {
    var data := FindByName(reported, vmName).value.result.data;
    var (v4, v6) := if request.FullRequest? then ResolvePublicIps(reported, vmName) else ("", "");
    DeploymentOutcome(node, twin, network.name, network.contractId, vmName, id, network.vmIp,
                      TextOf(data, "mycelium_ip"), v4, v6, TextOf(data, "console_url"))
  }

  /** The first half of an attempt: a network is planned, created and settled, or the existing one taken. */
  ghost predicate NetworkSpec(c: Crypto, signer: nat, request: Request, node: nat, twin: nat, suffix: nat,
                              ports: seq<Event>, s: Stage, r: Result<NetworkInfo>) {
    && (ports == [] || (|ports| == 1 && ports[0].AskedPorts? && ports[0].twin == twin))
    && if request.CreatesNetwork()
       then
         && (ports != [] <==> request.AsksPort() && VmIpFromSubnet(request.Subnet(suffix)).Ok?)
         && (s == [] <==> PlanFails(request, suffix, ports))
         && (s != [] ==> && StageSpec(c, signer, node, twin, s) && Finished(s) && s[0].Anchor?
                         && NetworkBuilt(request, signer, suffix, ports, s[0].deployment))
         && (r.Ok? <==> Complete(s))
         && (r.Ok? ==> r.value == NetworkInfo(request.NetworkName(suffix),
                                              VmIpFromSubnet(request.Subnet(suffix)).value, s[1].found.value))
       else s == [] && ports == [] && r == Ok(NetworkInfo(request.name, request.ip, 0))
  }

  /** The second half: the machine is created, settled and read back. */
  ghost predicate MachineSpec(c: Crypto, signer: nat, request: Request, node: nat, twin: nat, network: NetworkInfo,
                              suffix: nat, s: Stage, readback: seq<Event>, r: Result<DeploymentOutcome>) {
    var name := request.MachineName(suffix);
    && s != [] && StageSpec(c, signer, node, twin, s) && Finished(s)
    && s[0].Anchor? && MachineBuilt(request, signer, network, suffix, s[0].deployment)
    && (readback == [] || (&& |readback| == 1 && readback[0].Got? && readback[0].twin == twin
                           && Complete(s) && readback[0].id == s[1].found.value))
    && (r.Ok? <==> Complete(s) && ReadsBack(name, readback, s[3].settled.value))
    && (r.Ok? ==> r.value == OutcomeOf(request, node, twin, network, name, s[1].found.value,
                                       ExtractWorkloads(readback[0].got.value).value))
  }

  ghost predicate BodySpec(c: Crypto, signer: nat, request: Request, a: Attempt) {
    if a.ports == [] && a.network == [] && a.vm == [] && a.readback == [] && a.info.Err? then
      a.result == Err(a.info.error)
    else
      && NetworkSpec(c, signer, request, a.node, a.twin, a.suffix, a.ports, a.network, a.info)
      && if a.info.Err? then a.vm == [] && a.readback == [] && a.result == Err(a.info.error)
         else MachineSpec(c, signer, request, a.node, a.twin, a.info.value, a.suffix, a.vm, a.readback, a.result)
  }

  ghost predicate AttemptSpec(c: Crypto, signer: nat, request: Request, a: Attempt) {
    && BodySpec(c, signer, request, a)
    && (if a.result.Ok? then a.rollback == [] else RollbackSpec(a.twin, AttemptIds(a), a.rollback))
  }

  /** Cancelling an outcome: machine before network, node delete before chain cancel, zero ids
      skipped, and nothing after a cancel that failed. */
  ghost predicate CancelOutcomeSpec(o: DeploymentOutcome, tr: seq<Event>, r: Result<()>) {
    var ids := (if o.vmContractId != 0 then [o.vmContractId] else [])
             + (if o.networkContractId != 0 then [o.networkContractId] else []);
    && |tr| % 2 == 0 && |tr| <= 2 * |ids|
    && (forall i :: 0 <= i < |tr| / 2 ==>
          && tr[2 * i].Dropped? && tr[2 * i].twin == o.nodeTwinId && tr[2 * i].id == ids[i]
          && tr[2 * i + 1].Cancelled? && tr[2 * i + 1].id == ids[i]
          && (tr[2 * i + 1].ok || (i == |tr| / 2 - 1 && r.Err?)))
    && (r.Ok? <==> |tr| == 2 * |ids| && (forall e :: e in tr && e.Cancelled? ==> e.ok))
  }

  // ---- Failover over candidate nodes ----

  datatype ProxyNode = ProxyNode(nodeId: nat, twinId: nat, status: string, healthy: bool, features: seq<string>,
                                 farmFreeIps: nat, publicConfig: PublicConfig, total: Capacity, used: Capacity)
  datatype PublicConfig = PublicConfig(domain: string, gw4: string, gw6: string, ipv4: string, ipv6: string)
  datatype Capacity = Capacity(cru: nat, mru: nat, sru: nat)

  function Flatten(run: seq<Attempt>): seq<Event>
    decreases |run|
  {
    if run == [] then [] else Flatten(run[..|run| - 1]) + AttemptEvents(run[|run| - 1])
  }

  lemma FlattenPush(run: seq<Attempt>, a: Attempt)
    ensures Flatten(run + [a]) == Flatten(run) + AttemptEvents(a)
  {
    assert (run + [a])[..|run|] == run;
  }

  /** Attempts follow the candidates in order, and each but the last failed. */
  ghost predicate RunSpec(c: Crypto, signer: nat, request: Request, candidates: seq<ProxyNode>, run: seq<Attempt>) {
    && |run| <= |candidates|
    && forall i {:trigger AttemptSpec(c, signer, request, run[i])} :: 0 <= i < |run| ==>
         && AttemptSpec(c, signer, request, run[i])
         && run[i].node == candidates[i].nodeId && run[i].twin == candidates[i].twinId
         && (i < |run| - 1 ==> run[i].result.Err?)
  }

  ghost predicate FailoverSpec(c: Crypto, signer: nat, request: Request, candidates: seq<ProxyNode>,
                               run: seq<Attempt>, r: Result<DeploymentOutcome>) {
    && RunSpec(c, signer, request, candidates, run)
    && (r.Err? ==> |run| == |candidates|)
    && (if run == [] then r.Err? && r.error.NotFound? else r == run[|run| - 1].result)
  }
}
