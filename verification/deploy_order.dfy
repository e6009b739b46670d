/** In which order a deployment run does things. */
module DeployOrder {
  import opened GridErrors
  import opened Text
  import opened HexCodec
  import opened Deployments
  import opened DeployTrace
  import opened Placement
  import opened Accounting

  // ---- Rollback ----

  function NewestFirst(ids: seq<nat>): seq<nat>
    decreases |ids|
  {
    if ids == [] then []
    else
      var id := ids[|ids| - 1];
      (if id == 0 then [] else [id]) + NewestFirst(ids[..|ids| - 1])
  }

  /** Contract after contract in the given order: the node's drop, then the chain's cancel, nothing else. */
  ghost predicate TearsDown(twin: nat, order: seq<nat>, tr: seq<Event>) {
    && |tr| == 2 * |order|
    && forall i :: 0 <= i < |order| ==>
         && tr[2 * i].Dropped? && tr[2 * i].twin == twin && tr[2 * i].id == order[i]
         && tr[2 * i + 1].Cancelled? && tr[2 * i + 1].id == order[i]
  }

  lemma TearsDownFirst(twin: nat, order: seq<nat>, tr: seq<Event>)
    requires order != [] && |tr| >= 2 && TearsDown(twin, order[1..], tr[2..])
    requires tr[0].Dropped? && tr[0].twin == twin && tr[0].id == order[0]
    requires tr[1].Cancelled? && tr[1].id == order[0]
    ensures TearsDown(twin, order, tr)
  {
    forall i | 0 <= i < |order|
      ensures && tr[2 * i].Dropped? && tr[2 * i].twin == twin && tr[2 * i].id == order[i]
              && tr[2 * i + 1].Cancelled? && tr[2 * i + 1].id == order[i]
    {
      if i > 0 {
        assert tr[2 * i] == tr[2..][2 * (i - 1)] && tr[2 * i + 1] == tr[2..][2 * (i - 1) + 1];
        assert order[i] == order[1..][i - 1];
      }
    }
  }

  /** A rollback tears down the nonzero ids once each, newest first. */
  lemma {:induction false} RollbackReversesCreation(twin: nat, ids: seq<nat>, tr: seq<Event>)
    requires RollbackSpec(twin, ids, tr)
    ensures TearsDown(twin, NewestFirst(ids), tr)
    decreases |ids|
  {
    if ids != [] {
      var id, older := ids[|ids| - 1], ids[..|ids| - 1];
      if id == 0 {
        RollbackReversesCreation(twin, older, tr);
        assert NewestFirst(ids) == NewestFirst(older);
      } else {
        RollbackReversesCreation(twin, older, tr[2..]);
        assert NewestFirst(ids)[1..] == NewestFirst(older);
        TearsDownFirst(twin, NewestFirst(ids), tr);
      }
    }
  }

  lemma OneTornDown(twin: nat, id: nat, tr: seq<Event>)
    requires id != 0 && TornDown(twin, id, tr)
    ensures RollbackSpec(twin, [id], tr)
  {
    assert [id][..0] == [] && tr[2..] == [];
    assert RollbackSpec(twin, [], []);
  }

  /** Deploying into an existing network tears down at most one contract: the one the machine's wait returned. */
  lemma ExistingNetworkTearsDownOne(k: Crypto, signer: nat, request: Request, a: Attempt, e: Event)
    requires AttemptSpec(k, signer, request, a) && !request.CreatesNetwork()
    requires e in AttemptEvents(a) && (e.Cancelled? || e.Dropped?)
    ensures [e.id] == StageIds(a.vm)
  {
    AttemptEvent(k, signer, request, a, e);
    assert a.network == [] by { hide StageSpec, RollbackSpec; }
    hide AttemptSpec, StageSpec, AttemptEvents;
  }

  // ---- Failover ----

  /** Automatic placement makes at most five attempts, on the candidates in proxy order, each but
      the last failed and with every contract it had found submitted for cancellation. */
  lemma CandidatesAreTriedInTurn(k: Crypto, signer: nat, request: Request, needs: Needs, listed: seq<ProxyNode>,
                                 candidates: seq<ProxyNode>, run: seq<Attempt>, r: Result<DeploymentOutcome>, i: nat)
    requires PickNodes(listed, needs) == Ok(candidates)
    requires FailoverSpec(k, signer, request, candidates, run, r) && i < |run|
    ensures |run| <= 5
    ensures run[i].node == candidates[i].nodeId && run[i].twin == candidates[i].twinId
    ensures i < |run| - 1 || r.Err? ==>
      && run[i].result.Err?
      && forall id :: id in AttemptIds(run[i]) && id != 0 ==>
           exists e :: e in run[i].rollback && e.Cancelled? && e.id == id
  {
    hide AttemptSpec, RunSpec, AttemptIds;
    RunAttempt(k, signer, request, candidates, run, i);
    AttemptStages(k, signer, request, run[i]);
    if run[i].result.Err? {
      forall id | id in AttemptIds(run[i]) && id != 0
        ensures exists e :: e in run[i].rollback && e.Cancelled? && e.id == id
      {
        RollbackCovers(run[i].twin, AttemptIds(run[i]), run[i].rollback, id);
      }
    }
  }

  // ---- Network before machine ----

  lemma StageEnds(s: Stage)
    requires |s| == 4 && s[2].Confirm? && s[2].trace != [] && s[3].Settle? && s[3].trace != []
    ensures var ev, m := StageEvents(s), |StageEvents(s[..3])|;
            && 0 < m < |ev|
            && ev[m - 1] == s[2].trace[|s[2].trace| - 1] && ev[|ev| - 1] == s[3].trace[|s[3].trace| - 1]
  {
    assert s[..3][..2] == s[..2];
    assert StageEvents(s[..3]) == StageEvents(s[..2]) + s[2].trace;
    assert StageEvents(s) == StageEvents(s[..3]) + s[3].trace;
  }

  /** Position `j` submits the machine's contract; before it the network was confirmed at `i` and its
      wait returned at `m`, and no other contract but the network's was submitted. */
  ghost predicate MachineComesLast(a: Attempt, ev: seq<Event>, i: nat, m: nat, j: nat)
    requires Complete(a.network) && a.network[2].Confirm? && a.vm != [] && a.vm[0].Anchor?
    requires a.network[2].trace != [] && a.network[3].trace != []
  {
    && i < m < j < |ev|
    && Confirms(ev[i]) && ev[i] == a.network[2].trace[|a.network[2].trace| - 1]
    && Settles(ev[m]) && ev[m] == a.network[3].trace[|a.network[3].trace| - 1]
    && ev[j] == a.vm[0].create
    && forall x :: 0 <= x < j && ev[x].Created? ==> ev[x] == a.network[0].create
  }

  /** A complete stage was confirmed, and its workloads settled. */
  lemma CompleteStage(k: Crypto, signer: nat, node: nat, twin: nat, s: Stage)
    requires StageSpec(k, signer, node, twin, s) && Complete(s)
    ensures s[2].Confirm? && s[2].trace != [] && Confirms(s[2].trace[|s[2].trace| - 1])
    ensures s[3].Settle? && s[3].trace != [] && Settles(s[3].trace[|s[3].trace| - 1])
  {
    hide StageSpec, Confirms, Settles;
    StageFollows(k, signer, node, twin, s, 2);
    StageFollows(k, signer, node, twin, s, 3);
    assert Sending(twin, s[0].deployment.(contractId := s[1].found.value)).Decides(s[2].trace[|s[2].trace| - 1]);
    assert Settling(twin, s[1].found.value).Decides(s[3].trace[|s[3].trace| - 1]);
  }

  lemma MachineFollowsSettledNetwork(k: Crypto, signer: nat, request: Request, a: Attempt)
    requires AttemptSpec(k, signer, request, a) && request.CreatesNetwork() && a.vm != []
    ensures Complete(a.network) && a.network[2].Confirm? && a.vm[0].Anchor?
    ensures a.network[2].trace != [] && a.network[3].trace != []
    ensures exists i, m, j :: MachineComesLast(a, AttemptEvents(a), i, m, j)
  {
    hide StageSpec, AttemptSpec, AnchorSpec, StageEvents, Confirms, Settles;
    AttemptStages(k, signer, request, a);
    MachineNeedsNetwork(k, signer, request, a);
    var s := a.network;
    CompleteStage(k, signer, a.node, a.twin, s);
    StageAnchors(k, signer, a.node, a.twin, s);
    StageAnchors(k, signer, a.node, a.twin, a.vm);
    StageEnds(s);
    FirstOf(a.vm);
    assert forall e :: e in a.ports ==> e in a.ports + a.readback;
    var net := StageEvents(s);
    var p, n := |a.ports|, |StageEvents(s[..3])|;
    var i, m, j := p + n - 1, p + |net| - 1, p + |net|;
    var ev := AttemptEvents(a);
    assert ev[i] == net[n - 1] && ev[m] == net[|net| - 1] && ev[j] == StageEvents(a.vm)[0];
    forall x | 0 <= x < j && ev[x].Created? ensures ev[x] == s[0].create {
      OnlyNetworkBefore(k, signer, a, x);
    }
    assert MachineComesLast(a, ev, i, m, j);
  }

  lemma MachineNeedsNetwork(k: Crypto, signer: nat, request: Request, a: Attempt)
    requires AttemptSpec(k, signer, request, a) && request.CreatesNetwork() && a.vm != []
    ensures Complete(a.network) && a.vm[0].Anchor?
  {
    hide StageSpec, RollbackSpec, ReadsBack, NetworkBuilt, MachineBuilt, OutcomeOf, PlanFails;
  }

  lemma OnlyNetworkBefore(k: Crypto, signer: nat, a: Attempt, x: nat)
    requires a.network != [] && a.network[0].Anchor? && StageSpec(k, signer, a.node, a.twin, a.network)
    requires forall e :: e in a.ports ==> !e.Created?
    requires x < |a.ports| + |StageEvents(a.network)| && AttemptEvents(a)[x].Created?
    ensures AttemptEvents(a)[x] == a.network[0].create
  {
    hide StageSpec, StageEvents;
    if x >= |a.ports| {
      assert AttemptEvents(a)[x] == StageEvents(a.network)[x - |a.ports|];
      StageEvent(k, signer, a.node, a.twin, a.network, AttemptEvents(a)[x]);
    }
  }

  lemma FirstOf(s: Stage)
    requires s != [] && s[0].Anchor?
    ensures StageEvents(s) != [] && StageEvents(s)[0] == s[0].create
    decreases |s|
  {
    if |s| > 1 {
      FirstOf(s[..|s| - 1]);
    } else {
      assert StageEvents(s[..0]) == [];
    }
  }

  // ---- What a node is sent is what the chain anchors ----

  /** `sent` carries a deployment signed over the very hash that `create` anchored, under the id that
      the lookup `hit` returned for that hash. */
  ghost predicate Anchors(k: Crypto, signer: nat, create: Event, hit: Event, sent: Event) {
    && create.Created? && create.ok && Hit(hit) && sent.Sent?
    && HashHex(k, sent.deployment) == Ok(create.hash)
    && hit.node == create.node && hit.hash == create.hash && hit.reply.ids[0] == sent.deployment.contractId
    && HashBytes(k, sent.deployment).Ok?
    && sent.deployment.signatures
       == [Signature(signer, Encode(k.sign(HashBytes(k, sent.deployment).value)), "sr25519")]
  }

  ghost predicate AnchoredBefore(k: Crypto, signer: nat, tr: seq<Event>, j: nat)
    requires j < |tr|
  {
    exists i, l :: 0 <= i < l < j && Anchors(k, signer, tr[i], tr[l], tr[j])
  }

  lemma AnchoredInside(k: Crypto, signer: nat, pre: seq<Event>, tr: seq<Event>, j: nat)
    requires j < |tr| && AnchoredBefore(k, signer, tr, j)
    ensures AnchoredBefore(k, signer, pre + tr, |pre| + j)
    ensures AnchoredBefore(k, signer, tr + pre, j)
  {
    hide Anchors;
    var i, l :| 0 <= i < l < j && Anchors(k, signer, tr[i], tr[l], tr[j]);
    var n, right, left := |pre|, pre + tr, tr + pre;
    assert Anchors(k, signer, right[n + i], right[n + l], right[n + j]);
    assert Anchors(k, signer, left[i], left[l], left[j]);
  }

  lemma StageBegins(s: Stage)
    requires |s| >= 2 && s[0].Anchor? && s[1].Wait? && s[1].trace != []
    ensures |StageEvents(s)| > |s[1].trace|
    ensures StageEvents(s)[0] == s[0].create
    ensures StageEvents(s)[|s[1].trace|] == s[1].trace[|s[1].trace| - 1]
    ensures forall j :: 0 <= j <= |s[1].trace| ==> StageEvents(s)[j] in [s[0].create] + s[1].trace
    decreases |s|
  {
    if |s| == 2 {
      assert s[..1][..0] == [];
      assert StageEvents(s[..1]) == [s[0].create];
      assert StageEvents(s) == [s[0].create] + s[1].trace;
    } else {
      StageBegins(s[..|s| - 1]);
    }
  }

  lemma StageSendsWhatItAnchored(k: Crypto, signer: nat, node: nat, twin: nat, s: Stage, j: nat)
    requires StageSpec(k, signer, node, twin, s) && j < |StageEvents(s)| && StageEvents(s)[j].Sent?
    ensures AnchoredBefore(k, signer, StageEvents(s), j)
  {
    var e := StageEvents(s)[j];
    SentByConfirm(k, signer, node, twin, s, e);
    StageBegins(s);
    var hit := s[1].trace[|s[1].trace| - 1];
    assert Anchors(k, signer, s[0].create, hit, e);
    if j <= |s[1].trace| {
      assert e in [s[0].create] + s[1].trace;
      WaitSendsNothing(node, s, e);
    }
    assert StageEvents(s)[|s[1].trace|] == hit;
  }

  lemma WaitSendsNothing(node: nat, s: Stage, e: Event)
    requires |s| >= 2 && s[0].Anchor? && s[1].Wait? && s[0].create.Created?
    requires WaitSpec(node, s[0].hash, s[1].trace, s[1].found)
    requires e in [s[0].create] + s[1].trace
    ensures !e.Sent?
  {
    if e in s[1].trace {
      var i :| 0 <= i < |s[1].trace| && s[1].trace[i] == e;
      PhaseEvents(Looking(node, s[0].hash), s[1].trace, s[1].found.Ok?, i);
    }
  }

  lemma SentByConfirm(k: Crypto, signer: nat, node: nat, twin: nat, s: Stage, e: Event)
    requires StageSpec(k, signer, node, twin, s) && e in StageEvents(s) && e.Sent?
    ensures |s| > 2 && AnchorSpec(k, signer, node, s[0]) && s[0].create.ok
    ensures s[1].Wait? && s[1].trace != [] && s[1].found.Ok? && WaitSpec(node, s[0].hash, s[1].trace, s[1].found)
    ensures e.deployment == s[0].deployment.(contractId := s[1].found.value)
    ensures Hit(s[1].trace[|s[1].trace| - 1]) && s[1].trace[|s[1].trace| - 1].reply.ids[0] == e.deployment.contractId
    ensures s[1].trace[|s[1].trace| - 1].node == node && s[1].trace[|s[1].trace| - 1].hash == s[0].hash
    ensures HashHex(k, e.deployment) == Ok(s[0].hash) && HashBytes(k, e.deployment) == HashBytes(k, s[0].deployment)
  {
    hide HashHex, HashBytes, StageSpec, Confirms, Settles, StageEvents;
    StageAnchors(k, signer, node, twin, s);
    InSomeLeg(s, e);
    var n :| 0 <= n < |s| && e in s[n].Events();
    if n > 0 {
      StageFollows(k, signer, node, twin, s, n);
      var tr := s[n].trace;
      var i :| 0 <= i < |tr| && tr[i] == e;
      match s[n] {
        case Wait(_, found) => PhaseEvents(Looking(node, s[0].hash), tr, found.Ok?, i);
        case Confirm(_, confirmed) =>
          StageFollows(k, signer, node, twin, s, 1);
          var hit := s[1].trace[|s[1].trace| - 1];
          assert Looking(node, s[0].hash).Decides(hit);
          PhaseEvents(Sending(twin, s[0].deployment.(contractId := s[1].found.value)), tr, confirmed.Ok?, i);
          HashIgnoresLaterFields(k, s[0].deployment, e.deployment);
        case Settle(_, settled) => PhaseEvents(Settling(twin, s[1].found.value), tr, settled.Ok?, i);
      }
    }
  }

  lemma HalfSendsWhatItAnchored(k: Crypto, signer: nat, node: nat, twin: nat, pre: seq<Event>, s: Stage,
                                post: seq<Event>, j: nat)
    requires s == [] || StageSpec(k, signer, node, twin, s)
    requires forall e :: e in pre || e in post ==> !e.Sent?
    requires j < |pre + (StageEvents(s) + post)| && (pre + (StageEvents(s) + post))[j].Sent?
    ensures AnchoredBefore(k, signer, pre + (StageEvents(s) + post), j)
  {
    hide StageSpec, StageEvents, AnchoredBefore;
    var tr := StageEvents(s);
    var e := (pre + (tr + post))[j];
    if s == [] { NoStageEvents(); }
    assert e !in pre && e !in post;
    assert |pre| <= j < |pre| + |tr|;
    StageSendsWhatItAnchored(k, signer, node, twin, s, j - |pre|);
    AnchoredInside(k, signer, post, tr, j - |pre|);
    AnchoredInside(k, signer, pre, tr + post, j - |pre|);
  }

  lemma HalvesSendWhatTheyAnchored(k: Crypto, signer: nat, first: seq<Event>, second: seq<Event>, rest: seq<Event>,
                                   j: nat)
    requires forall i :: 0 <= i < |first| && first[i].Sent? ==> AnchoredBefore(k, signer, first, i)
    requires forall i :: 0 <= i < |second| && second[i].Sent? ==> AnchoredBefore(k, signer, second, i)
    requires forall e :: e in rest ==> !e.Sent?
    requires j < |first + second + rest| && (first + second + rest)[j].Sent?
    ensures AnchoredBefore(k, signer, first + second + rest, j)
  {
    hide AnchoredBefore;
    var e := (first + second + rest)[j];
    assert e !in rest;
    if j < |first| {
      assert first[j] == e;
      AnchoredInside(k, signer, second, first, j);
    } else {
      assert second[j - |first|] == e;
      AnchoredInside(k, signer, first, second, j - |first|);
    }
    AnchoredInside(k, signer, rest, first + second, j);
  }

  lemma AttemptSendsWhatItAnchored(k: Crypto, signer: nat, request: Request, a: Attempt, j: nat)
    requires AttemptSpec(k, signer, request, a) && j < |AttemptEvents(a)| && AttemptEvents(a)[j].Sent?
    ensures AnchoredBefore(k, signer, AttemptEvents(a), j)
  {
    hide AttemptSpec, StageSpec, StageEvents, AnchoredBefore, RollbackSpec;
    AttemptStages(k, signer, request, a);
    OthersSendNothing(k, signer, request, a);
    var first, second := a.ports + StageEvents(a.network), StageEvents(a.vm) + a.readback;
    assert a.ports + (StageEvents(a.network) + []) == first && [] + second == second;
    forall i | 0 <= i < |first| && first[i].Sent? ensures AnchoredBefore(k, signer, first, i) {
      HalfSendsWhatItAnchored(k, signer, a.node, a.twin, a.ports, a.network, [], i);
    }
    forall i | 0 <= i < |second| && second[i].Sent? ensures AnchoredBefore(k, signer, second, i) {
      HalfSendsWhatItAnchored(k, signer, a.node, a.twin, [], a.vm, a.readback, i);
    }
    HalvesSendWhatTheyAnchored(k, signer, first, second, a.rollback, j);
  }

  lemma OthersSendNothing(k: Crypto, signer: nat, request: Request, a: Attempt)
    requires AttemptSpec(k, signer, request, a)
    ensures forall e :: e in a.ports || e in a.readback || e in a.rollback ==> !e.Sent?
  {
    hide AttemptSpec, StageSpec, RollbackSpec;
    AttemptStages(k, signer, request, a);
    forall e | e in a.ports || e in a.readback || e in a.rollback ensures !e.Sent? {
      if e in a.rollback {
        RollbackEvent(a.twin, AttemptIds(a), a.rollback, e);
      } else {
        assert e in a.ports + a.readback;
      }
    }
  }

  /** Every deployment a node is ever sent in a run hashes to what was anchored on chain before, is
      signed over that hash, and carries the id that was looked up by it. */
  lemma {:induction false} SentIsAnchored(k: Crypto, signer: nat, request: Request, candidates: seq<ProxyNode>,
                                          run: seq<Attempt>, j: nat)
    requires RunSpec(k, signer, request, candidates, run)
    requires j < |Flatten(run)| && Flatten(run)[j].Sent?
    ensures AnchoredBefore(k, signer, Flatten(run), j)
    decreases |run|
  {
    hide AttemptSpec, RunSpec, AttemptEvents, AnchoredBefore;
    var n := |run| - 1;
    RunPrefix(k, signer, request, candidates, run, n);
    RunAttempt(k, signer, request, candidates, run, n);
    var before, last := Flatten(run[..n]), AttemptEvents(run[n]);
    if j < |before| {
      SentIsAnchored(k, signer, request, candidates, run[..n], j);
      AnchoredInside(k, signer, last, before, j);
    } else {
      AttemptSendsWhatItAnchored(k, signer, request, run[n], j - |before|);
      AnchoredInside(k, signer, before, last, j - |before|);
    }
  }

  // ---- Looking a contract up by its hash ----

  /** Lookups list contracts that are live on that node under that hash. */
  ghost predicate Truthful(c: Chain, tr: seq<Event>) {
    forall j :: 0 <= j < |tr| && Hit(tr[j]) ==>
      var m, id := Replay(c, tr[..j]), tr[j].reply.ids[0];
      id in Live(m) && m[id].node == tr[j].node && m[id].hash == tr[j].hash
  }

  /** No two live contracts share node and hash. */
  predicate Unambiguous(c: Chain) {
    forall x, y :: x in Live(c) && y in Live(c) && c[x].node == c[y].node && c[x].hash == c[y].hash ==> x == y
  }

  /** No successful creation of the trace leaves a clash behind. */
  ghost predicate ClashFree(c: Chain, tr: seq<Event>) {
    forall j :: 0 <= j < |tr| && tr[j].Created? && tr[j].ok ==> Unambiguous(Replay(c, tr[..j + 1]))
  }

  /** A truthful lookup on a chain without clashes returns the contract just created. */
  lemma TruthfulLookupFindsTheNewContract(c: Chain, node: nat, hash: string, create: Event, wait: seq<Event>, id: nat)
    requires create.Created? && create.ok && create.node == node && create.hash == hash && Admissible(c, create)
    requires WaitSpec(node, hash, wait, Ok(id))
    requires Truthful(c, [create] + wait) && Unambiguous(Step(c, create))
    ensures id == create.id
  {
    hide Run, Undecided;
    var n, p := |wait| - 1, Looking(node, hash);
    var after := Step(c, create);
    forall e | e in wait[..n] ensures !TouchesChain(e) {
      var i :| 0 <= i < n && wait[i] == e;
      PhaseEvents(p, wait, true, i);
    }
    QuietRun(after, wait[..n]);
    QuietRun(c, []);
    RunPush(c, [], c, create);
    assert [] + [create] == [create];
    RunAppend(c, [create], after, wait[..n], after);
    RunReplays(c, [create] + wait[..n], after);
    var tr := [create] + wait;
    assert tr[..n + 1] == [create] + wait[..n] && tr[n + 1] == wait[n];
    assert p.Decides(wait[n]) && Hit(tr[n + 1]);
    assert id in Live(after) && create.id in Live(after);
  }
}
