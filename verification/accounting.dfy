/** Which contracts a deployment run leaves behind, for every environment. */
module Accounting {
  import opened GridErrors
  import opened KeyOrder
  import opened Deployments
  import opened DeployTrace

  // ---- What a trace did to the chain ----

  function CreatedIds(tr: seq<Event>): set<nat> {
    set e | e in tr && e.Created? && e.id != 0 :: e.id
  }

  /** The ids `wait_for_contract` returned. */
  function ObservedIds(tr: seq<Event>): set<nat> {
    set e | e in tr && Hit(e) :: e.reply.ids[0]
  }

  function FailedCancels(tr: seq<Event>): set<nat> {
    set e | e in tr && e.Cancelled? && !e.ok :: e.id
  }

  function OutcomeIds(r: Result<DeploymentOutcome>): set<nat> {
    if r.Err? then {} else {r.value.networkContractId, r.value.vmContractId} - {0}
  }

  lemma {:induction false} RunSplit(c: Chain, a: seq<Event>, b: seq<Event>, after: Chain)
    requires Run(c, a + b, after)
    ensures Run(c, a, Replay(c, a)) && Run(Replay(c, a), b, after)
    decreases |b|
  {
    if b == [] {
      assert a + b == a;
      RunReplays(c, a, after);
    } else {
      var n := |b| - 1;
      assert (a + b)[..|a + b| - 1] == a + b[..n];
      var before := Replay(c, a + b[..n]);
      RunSplit(c, a, b[..n], before);
      RunPush(Replay(c, a), b[..n], before, b[n]);
      assert b[..n] + [b[n]] == b;
    }
  }

  /** Ids stay on the chain, and cancelled contracts stay cancelled. */
  lemma {:induction false} IdsStay(c: Chain, tr: seq<Event>, after: Chain, id: nat)
    requires Run(c, tr, after) && id in c
    ensures id in after && (!c[id].live ==> !after[id].live)
    decreases |tr|
  {
    if tr != [] {
      IdsStay(c, tr[..|tr| - 1], Replay(c, tr[..|tr| - 1]), id);
    }
  }

  lemma {:induction false} LiveWereCreated(c: Chain, tr: seq<Event>, after: Chain, id: nat)
    requires Run(c, tr, after) && id in Live(after) && id !in Live(c)
    ensures id in CreatedIds(tr)
    decreases |tr|
  {
    if tr != [] {
      var n := |tr| - 1;
      var before := Replay(c, tr[..n]);
      if id in Live(before) {
        LiveWereCreated(c, tr[..n], before, id);
        var e :| e in tr[..n] && e.Created? && e.id == id;
        assert e in tr;
      } else {
        assert tr[n].Created? && tr[n].id == id;
        assert tr[n] in tr;
      }
    }
  }

  lemma {:induction false} LostWereCancelled(c: Chain, tr: seq<Event>, after: Chain, id: nat)
    requires Run(c, tr, after) && id in Live(c) && id !in Live(after)
    ensures exists e :: e in tr && e.Cancelled? && e.id == id
    decreases |tr|
  {
    IdsStay(c, tr, after, id);
    if tr != [] {
      var n := |tr| - 1;
      var before := Replay(c, tr[..n]);
      if id in Live(before) {
        assert tr[n].Cancelled? && tr[n].id == id;
        assert tr[n] in tr;
      } else {
        LostWereCancelled(c, tr[..n], before, id);
        var e :| e in tr[..n] && e.Cancelled? && e.id == id;
        assert e in tr;
      }
    }
  }

  /** Cuts a run at one of its events. */
  lemma RunAt(c: Chain, tr: seq<Event>, after: Chain, e: Event) returns (pre: seq<Event>, post: seq<Event>)
    requires Run(c, tr, after) && e in tr
    ensures tr == pre + [e] + post
    ensures Run(c, pre, Replay(c, pre)) && Admissible(Replay(c, pre), e)
    ensures Run(Step(Replay(c, pre), e), post, after)
  {
    var i :| 0 <= i < |tr| && tr[i] == e;
    pre, post := tr[..i], tr[i + 1..];
    assert tr == pre + [e] + post;
    RunSplit(c, pre + [e], post, after);
    RunSplit(c, pre, [e], Replay(c, pre + [e]));
    assert [e][..0] == [];
  }

  /** Created ids are new, distinct, and live until cancelled. */
  lemma CreatedAreFresh(c: Chain, tr: seq<Event>, after: Chain, id: nat)
    requires Run(c, tr, after) && id in CreatedIds(tr)
    ensures id !in c && id in after
    ensures (forall e :: e in tr && e.Cancelled? ==> e.id != id) ==> id in Live(after)
  {
    hide Run;
    var e :| e in tr && e.Created? && e.id == id;
    var pre, post := RunAt(c, tr, after, e);
    var before, between := Replay(c, pre), Step(Replay(c, pre), e);
    if id in c { IdsStay(c, pre, before, id); }
    IdsStay(between, post, after, id);
    if id !in Live(after) {
      LostWereCancelled(between, post, after, id);
      var x :| x in post && x.Cancelled? && x.id == id;
      assert x in tr;
    }
  }

  lemma CancelledStayDead(c: Chain, tr: seq<Event>, after: Chain, e: Event)
    requires Run(c, tr, after) && e in tr && e.Cancelled? && e.ok
    ensures e.id !in Live(after)
  {
    hide Run;
    var pre, post := RunAt(c, tr, after, e);
    IdsStay(Step(Replay(c, pre), e), post, after, e.id);
  }

  lemma CreatedSplit(c: Chain, a: seq<Event>, b: seq<Event>, after: Chain)
    requires Run(c, a + b, after)
    ensures CreatedIds(a + b) == CreatedIds(a) + CreatedIds(b)
    ensures CreatedIds(a) !! CreatedIds(b)
    ensures |CreatedIds(a + b)| == |CreatedIds(a)| + |CreatedIds(b)|
  {
    RunSplit(c, a, b, after);
    var mid := Replay(c, a);
    forall id | id in CreatedIds(a) ensures id !in CreatedIds(b) {
      CreatedAreFresh(c, a, mid, id);
      if id in CreatedIds(b) { CreatedAreFresh(mid, b, after, id); }
    }
    var x, y := CreatedIds(a), CreatedIds(b);
    assert forall e :: e in a + b <==> e in a || e in b;
    assert CreatedIds(a + b) == x + y;
    assert x * y == {};
  }

  // ---- One stage ----

  lemma {:induction false} InSomeLeg(s: Stage, e: Event)
    requires e in StageEvents(s)
    ensures exists n :: 0 <= n < |s| && e in s[n].Events()
    decreases |s|
  {
    var n := |s| - 1;
    if e !in s[n].Events() {
      InSomeLeg(s[..n], e);
      var k :| 0 <= k < n && e in s[..n][k].Events();
      assert e in s[k].Events();
    }
  }

  lemma {:induction false} LegInStage(s: Stage, n: nat, e: Event)
    requires n < |s| && e in s[n].Events()
    ensures e in StageEvents(s)
    decreases |s|
  {
    if n < |s| - 1 { LegInStage(s[..|s| - 1], n, e); }
  }

  /** A stage submits one contract, cancels none, and observes at most the id its wait returned. */
  lemma StageEvent(c: Crypto, signer: nat, node: nat, twin: nat, s: Stage, e: Event)
    requires StageSpec(c, signer, node, twin, s) && e in StageEvents(s)
    ensures e.Created? ==> s[0].Anchor? && e == s[0].create
    ensures !e.Cancelled? && !e.Dropped?
    ensures Hit(e) ==> e.reply.ids[0] in StageIds(s)
  {
    hide HashHex, HashBytes, Run, StageSpec, Confirms, Settles, Retryable;
    StageAnchors(c, signer, node, twin, s);
    InSomeLeg(s, e);
    var n :| 0 <= n < |s| && e in s[n].Events();
    if n > 0 {
      StageFollows(c, signer, node, twin, s, n);
      var tr := s[n].trace;
      var i :| 0 <= i < |tr| && tr[i] == e;
      match s[n] {
        case Wait(_, found) => PhaseEvents(Looking(node, s[0].hash), tr, found.Ok?, i);
        case Confirm(_, confirmed) =>
          PhaseEvents(Sending(twin, s[0].deployment.(contractId := s[1].found.value)), tr, confirmed.Ok?, i);
        case Settle(_, settled) => PhaseEvents(Settling(twin, s[1].found.value), tr, settled.Ok?, i);
      }
    }
  }

  /** The id a stage reports was listed, and its submission was seen to succeed. */
  lemma StageObserved(c: Crypto, signer: nat, node: nat, twin: nat, s: Stage)
    requires StageSpec(c, signer, node, twin, s)
    ensures forall id :: id in StageIds(s) ==> id in ObservedIds(StageEvents(s))
    ensures s[0].Anchor? && s[0].create in StageEvents(s) && s[0].create.Created?
    ensures StageIds(s) != [] ==> s[0].create.ok
  {
    hide HashHex, HashBytes, Run, StageSpec;
    StageAnchors(c, signer, node, twin, s);
    LegInStage(s, 0, s[0].create);
    if StageIds(s) != [] {
      StageFollows(c, signer, node, twin, s, 1);
      var last := s[1].trace[|s[1].trace| - 1];
      assert Looking(node, s[0].hash).Decides(last);
      assert last in s[1].trace;
      LegInStage(s, 1, last);
    }
  }

  lemma OkCreationHasId(c: Chain, tr: seq<Event>, after: Chain, e: Event)
    requires Run(c, tr, after) && e in tr && e.Created? && e.ok
    ensures e.id in CreatedIds(tr)
  {
    hide Run;
    var _, _ := RunAt(c, tr, after, e);
  }

  lemma StageCounts(c: Chain, k: Crypto, signer: nat, node: nat, twin: nat, s: Stage, after: Chain)
    requires s == [] || StageSpec(k, signer, node, twin, s)
    requires Run(c, StageEvents(s), after)
    ensures |StageIds(s)| <= |CreatedIds(StageEvents(s))|
  {
    hide StageSpec, StageEvents, Run, CreatedIds;
    if StageIds(s) != [] {
      StageObserved(k, signer, node, twin, s);
      OkCreationHasId(c, StageEvents(s), after, s[0].create);
      CardinalityOfSubset({s[0].create.id}, CreatedIds(StageEvents(s)));
    }
  }

  lemma {:induction false} CardinalityOfSubset(a: set<nat>, b: set<nat>)
    requires a <= b
    ensures |a| <= |b|
    ensures |a| == |b| ==> a == b
  {
    assert b == a + (b - a);
    if |a| == |b| { assert b - a == {}; }
  }

  // ---- One attempt ----

  lemma {:induction false} RollbackEvent(twin: nat, ids: seq<nat>, tr: seq<Event>, e: Event)
    requires RollbackSpec(twin, ids, tr) && e in tr
    ensures (e.Cancelled? || (e.Dropped? && e.twin == twin)) && e.id in ids && e.id != 0
    decreases |ids|
  {
    if ids != [] {
      var id, older := ids[|ids| - 1], ids[..|ids| - 1];
      if id == 0 {
        RollbackEvent(twin, older, tr, e);
      } else if e in tr[2..] {
        RollbackEvent(twin, older, tr[2..], e);
      } else {
        assert tr == [tr[0], tr[1]] + tr[2..];
      }
    }
  }

  lemma {:induction false} RollbackCovers(twin: nat, ids: seq<nat>, tr: seq<Event>, id: nat)
    requires RollbackSpec(twin, ids, tr) && id in ids && id != 0
    ensures exists e :: e in tr && e.Cancelled? && e.id == id
    decreases |ids|
  {
    var last, older := ids[|ids| - 1], ids[..|ids| - 1];
    if last == 0 {
      assert id in older;
      RollbackCovers(twin, older, tr, id);
    } else if last == id {
      assert tr[1] in tr;
    } else {
      assert id in older;
      RollbackCovers(twin, older, tr[2..], id);
      var e :| e in tr[2..] && e.Cancelled? && e.id == id;
      assert e in tr;
    }
  }

  /** The stages of an attempt, both empty or as specified. */
  lemma AttemptStages(k: Crypto, signer: nat, request: Request, a: Attempt)
    requires AttemptSpec(k, signer, request, a)
    ensures a.network == [] || StageSpec(k, signer, a.node, a.twin, a.network)
    ensures a.vm == [] || StageSpec(k, signer, a.node, a.twin, a.vm)
    ensures forall e :: e in a.ports + a.readback ==> e.AskedPorts? || e.Got?
    ensures if a.result.Ok? then a.rollback == [] else RollbackSpec(a.twin, AttemptIds(a), a.rollback)
  {
    hide StageSpec, RollbackSpec, ReadsBack, NetworkBuilt, MachineBuilt;
  }

  /** Only the rollback tears down, and only contracts this attempt's waits returned. */
  lemma AttemptEvent(k: Crypto, signer: nat, request: Request, a: Attempt, e: Event)
    requires AttemptSpec(k, signer, request, a) && e in AttemptEvents(a)
    ensures e.Cancelled? || e.Dropped? ==> a.result.Err? && e in a.rollback && e.id in AttemptIds(a) && e.id != 0
    ensures Hit(e) ==> e.reply.ids[0] in AttemptIds(a)
  {
    hide AttemptSpec, StageSpec, RollbackSpec, StageEvents, StageIds;
    AttemptStages(k, signer, request, a);
    if e in StageEvents(a.network) {
      if a.network == [] { NoStageEvents(); }
      StageEvent(k, signer, a.node, a.twin, a.network, e);
    } else if e in StageEvents(a.vm) {
      if a.vm == [] { NoStageEvents(); }
      StageEvent(k, signer, a.node, a.twin, a.vm, e);
    } else if e in a.rollback {
      RollbackEvent(a.twin, AttemptIds(a), a.rollback, e);
    } else {
      assert e in a.ports + a.readback;
    }
  }

  lemma NoStageEvents()
    ensures StageEvents([]) == [] && StageIds([]) == []
  {
  }

  lemma AttemptObserved(k: Crypto, signer: nat, request: Request, a: Attempt)
    requires AttemptSpec(k, signer, request, a)
    ensures forall id :: id in AttemptIds(a) ==> id in ObservedIds(AttemptEvents(a))
  {
    hide AttemptSpec, StageSpec, RollbackSpec, StageEvents, StageIds;
    AttemptStages(k, signer, request, a);
    forall id | id in AttemptIds(a) ensures id in ObservedIds(AttemptEvents(a)) {
      var s := if id in StageIds(a.network) then a.network else a.vm;
      if s == [] { NoStageEvents(); }
      StageObserved(k, signer, a.node, a.twin, s);
      var e :| e in StageEvents(s) && Hit(e) && e.reply.ids[0] == id;
      assert e in AttemptEvents(a);
    }
  }

  lemma AttemptCounts(c: Chain, k: Crypto, signer: nat, request: Request, a: Attempt, after: Chain)
    requires AttemptSpec(k, signer, request, a) && Run(c, AttemptEvents(a), after)
    ensures |AttemptIds(a)| <= |CreatedIds(AttemptEvents(a))|
  {
    hide AttemptSpec, StageSpec, RollbackSpec, StageEvents, StageIds, Run, Replay, CreatedIds;
    AttemptStages(k, signer, request, a);
    var first, second := a.ports + StageEvents(a.network), StageEvents(a.vm) + a.readback;
    var mid, body := Replay(c, first), Replay(c, first + second);
    CreatedSplit(c, first + second, a.rollback, after);
    RunSplit(c, first + second, a.rollback, after);
    CreatedSplit(c, first, second, body);
    RunSplit(c, first, second, body);
    CreatedSplit(c, a.ports, StageEvents(a.network), mid);
    RunSplit(c, a.ports, StageEvents(a.network), mid);
    CreatedSplit(mid, StageEvents(a.vm), a.readback, body);
    RunSplit(mid, StageEvents(a.vm), a.readback, body);
    StageCounts(Replay(c, a.ports), k, signer, a.node, a.twin, a.network, mid);
    StageCounts(mid, k, signer, a.node, a.twin, a.vm, Replay(mid, StageEvents(a.vm)));
  }

  // ---- A run over candidate nodes ----

  /** All ids the attempts of a run pushed on their `created` lists, in order. */
  function FoundIds(run: seq<Attempt>): seq<nat>
    decreases |run|
  {
    if run == [] then [] else FoundIds(run[..|run| - 1]) + AttemptIds(run[|run| - 1])
  }

  lemma RunAttempt(k: Crypto, signer: nat, request: Request, candidates: seq<ProxyNode>, run: seq<Attempt>, i: nat)
    requires RunSpec(k, signer, request, candidates, run) && i < |run|
    ensures |run| <= |candidates|
    ensures AttemptSpec(k, signer, request, run[i])
    ensures run[i].node == candidates[i].nodeId && run[i].twin == candidates[i].twinId
    ensures i < |run| - 1 ==> run[i].result.Err?
  {
    hide AttemptSpec;
  }

  lemma RunPrefix(k: Crypto, signer: nat, request: Request, candidates: seq<ProxyNode>, run: seq<Attempt>, n: nat)
    requires RunSpec(k, signer, request, candidates, run) && n <= |run|
    ensures RunSpec(k, signer, request, candidates, run[..n])
  {
    hide AttemptSpec;
    forall i | 0 <= i < n ensures AttemptSpec(k, signer, request, run[..n][i]) {
      assert AttemptSpec(k, signer, request, run[i]);
    }
  }

  lemma {:induction false} InSomeAttempt(run: seq<Attempt>, e: Event)
    requires e in Flatten(run)
    ensures exists i :: 0 <= i < |run| && e in AttemptEvents(run[i])
    decreases |run|
  {
    hide AttemptEvents;
    var n := |run| - 1;
    if e !in AttemptEvents(run[n]) {
      InSomeAttempt(run[..n], e);
      var i :| 0 <= i < n && e in AttemptEvents(run[..n][i]);
      assert e in AttemptEvents(run[i]);
    }
  }

  lemma {:induction false} AttemptInRun(run: seq<Attempt>, i: nat, e: Event)
    requires i < |run| && e in AttemptEvents(run[i])
    ensures e in Flatten(run)
    decreases |run|
  {
    hide AttemptEvents;
    if i < |run| - 1 { AttemptInRun(run[..|run| - 1], i, e); }
  }

  lemma {:induction false} InSomeFound(run: seq<Attempt>, id: nat)
    ensures id in FoundIds(run) <==> exists i :: 0 <= i < |run| && id in AttemptIds(run[i])
    decreases |run|
  {
    hide AttemptIds;
    if run != [] {
      var n := |run| - 1;
      InSomeFound(run[..n], id);
      if i :| 0 <= i < n && id in AttemptIds(run[i]) { assert id in AttemptIds(run[..n][i]); }
      if id in FoundIds(run[..n]) {
        var i :| 0 <= i < n && id in AttemptIds(run[..n][i]);
        assert id in AttemptIds(run[i]);
      }
    }
  }

  /** What the waits returned is exactly what the lookups listed. */
  lemma RunObserved(k: Crypto, signer: nat, request: Request, candidates: seq<ProxyNode>, run: seq<Attempt>)
    requires RunSpec(k, signer, request, candidates, run)
    ensures ObservedIds(Flatten(run)) == Elements(FoundIds(run))
  {
    hide AttemptSpec, RunSpec, AttemptEvents, AttemptIds, Flatten, FoundIds;
    forall id | id in ObservedIds(Flatten(run)) ensures id in FoundIds(run) {
      var e :| e in Flatten(run) && Hit(e) && e.reply.ids[0] == id;
      InSomeAttempt(run, e);
      var i :| 0 <= i < |run| && e in AttemptEvents(run[i]);
      RunAttempt(k, signer, request, candidates, run, i);
      AttemptEvent(k, signer, request, run[i], e);
      InSomeFound(run, id);
    }
    forall id | id in FoundIds(run) ensures id in ObservedIds(Flatten(run)) {
      InSomeFound(run, id);
      var i :| 0 <= i < |run| && id in AttemptIds(run[i]);
      RunAttempt(k, signer, request, candidates, run, i);
      AttemptObserved(k, signer, request, run[i]);
      var e :| e in AttemptEvents(run[i]) && Hit(e) && e.reply.ids[0] == id;
      AttemptInRun(run, i, e);
    }
  }

  /** Every id found is matched by a creation of its own. */
  lemma {:induction false} RunCounts(c: Chain, k: Crypto, signer: nat, request: Request, candidates: seq<ProxyNode>,
                                     run: seq<Attempt>, after: Chain)
    requires RunSpec(k, signer, request, candidates, run) && Run(c, Flatten(run), after)
    ensures |FoundIds(run)| <= |CreatedIds(Flatten(run))|
    decreases |run|
  {
    hide AttemptSpec, RunSpec, AttemptEvents, AttemptIds, Run, CreatedIds;
    if run != [] {
      var n := |run| - 1;
      RunPrefix(k, signer, request, candidates, run, n);
      RunAttempt(k, signer, request, candidates, run, n);
      var tr := AttemptEvents(run[n]);
      CreatedSplit(c, Flatten(run[..n]), tr, after);
      RunSplit(c, Flatten(run[..n]), tr, after);
      RunCounts(c, k, signer, request, candidates, run[..n], Replay(c, Flatten(run[..n])));
      AttemptCounts(Replay(c, Flatten(run[..n])), k, signer, request, run[n], after);
    }
  }

  lemma {:induction false} DistinctCount(s: seq<nat>)
    ensures |Elements(s)| <= |s|
    ensures |Elements(s)| == |s| ==> Distinct(s)
  {
    if s != [] {
      var before, last := s[..|s| - 1], s[|s| - 1];
      DistinctCount(before);
      assert Elements(s) == Elements(before) + {last};
      if last in before {
        assert last in Elements(before);
        assert Elements(s) == Elements(before);
      }
      assert forall i :: 0 <= i < |before| ==> s[i] == before[i] && before[i] in before;
    }
  }

  /** A list no longer than the set it covers lists exactly that set, each element once. */
  lemma Pigeonhole(s: seq<nat>, ids: set<nat>)
    requires |s| <= |ids| && ids <= Elements(s)
    ensures Elements(s) == ids && Distinct(s)
  {
    DistinctCount(s);
    CardinalityOfSubset(ids, Elements(s));
  }

  lemma OutcomeIdsOf(k: Crypto, signer: nat, request: Request, a: Attempt)
    requires AttemptSpec(k, signer, request, a) && a.result.Ok?
    ensures OutcomeIds(a.result) == Elements(AttemptIds(a)) - {0}
  {
    hide StageSpec, ReadsBack, NetworkBuilt, MachineBuilt, RollbackSpec;
  }

  /** Whoever cancels is a failed attempt's rollback, and it cancels what that attempt found. */
  lemma RunCancels(k: Crypto, signer: nat, request: Request, candidates: seq<ProxyNode>, run: seq<Attempt>, e: Event)
    returns (i: nat)
    requires RunSpec(k, signer, request, candidates, run) && e in Flatten(run) && e.Cancelled?
    ensures i < |run| && run[i].result.Err? && e.id in AttemptIds(run[i]) && e.id in FoundIds(run)
  {
    hide AttemptSpec, RunSpec, AttemptEvents, AttemptIds, Flatten, FoundIds;
    InSomeAttempt(run, e);
    i :| 0 <= i < |run| && e in AttemptEvents(run[i]);
    RunAttempt(k, signer, request, candidates, run, i);
    AttemptEvent(k, signer, request, run[i], e);
    InSomeFound(run, e.id);
  }

  /** Accounting amid other clients: `all` is any chain run that holds the run's own events in any places,
      with creations and cancellations of others between them. A contract of the run's own that is live
      at the end is named by the outcome, or its rollback cancel was not seen to succeed, or no wait
      ever returned it. */
  lemma OwnSurvivorsAreAccountedFor(c: Chain, k: Crypto, signer: nat, request: Request, candidates: seq<ProxyNode>,
                                    run: seq<Attempt>, r: Result<DeploymentOutcome>, all: seq<Event>, after: Chain,
                                    id: nat)
    requires FailoverSpec(k, signer, request, candidates, run, r)
    requires Run(c, all, after) && forall e :: e in Flatten(run) ==> e in all
    requires id in Live(after) && id in CreatedIds(Flatten(run))
    ensures || id in OutcomeIds(r)
            || id in FailedCancels(Flatten(run))
            || id !in ObservedIds(Flatten(run))
  {
    hide AttemptSpec, RunSpec, AttemptEvents, AttemptIds, Flatten, FoundIds, Run;
    var tr := Flatten(run);
    if id in ObservedIds(tr) {
      RunObserved(k, signer, request, candidates, run);
      InSomeFound(run, id);
      var i :| 0 <= i < |run| && id in AttemptIds(run[i]);
      RunAttempt(k, signer, request, candidates, run, i);
      var a := run[i];
      if a.result.Ok? {
        OutcomeIdsOf(k, signer, request, a);
      } else {
        AttemptStages(k, signer, request, a);
        RollbackCovers(a.twin, AttemptIds(a), a.rollback, id);
        var e :| e in a.rollback && e.Cancelled? && e.id == id;
        RollbackInAttempt(a, e);
        AttemptInRun(run, i, e);
        if e.ok { CancelledStayDead(c, all, after, e); }
      }
    }
  }

  /** Accounting for every run and every environment: a contract that is live now but was not before
      is named by the outcome, or its rollback cancel was not seen to succeed, or no wait ever
      returned it. */
  lemma SurvivorsAreAccountedFor(c: Chain, k: Crypto, signer: nat, request: Request, candidates: seq<ProxyNode>,
                                 run: seq<Attempt>, r: Result<DeploymentOutcome>, after: Chain, id: nat)
    requires FailoverSpec(k, signer, request, candidates, run, r) && Run(c, Flatten(run), after)
    requires id in Live(after) && id !in Live(c)
    ensures || id in OutcomeIds(r)
            || id in FailedCancels(Flatten(run))
            || id in CreatedIds(Flatten(run)) - ObservedIds(Flatten(run))
  {
    hide FailoverSpec, Flatten, Run, CreatedIds, ObservedIds, FailedCancels, OutcomeIds;
    LiveWereCreated(c, Flatten(run), after, id);
    OwnSurvivorsAreAccountedFor(c, k, signer, request, candidates, run, r, Flatten(run), after, id);
  }

  lemma RollbackInAttempt(a: Attempt, e: Event)
    requires e in a.rollback
    ensures e in AttemptEvents(a)
  {
  }

  /** Exact accounting: when every cancel succeeds, a run adds exactly the contracts its outcome
      names - none, when it fails - if and only if every contract it created was returned by some
      wait. Nothing is assumed about the truth of the lookups. */
  lemma ChainIsExactIffCreationsObserved(c: Chain, k: Crypto, signer: nat, request: Request, candidates: seq<ProxyNode>,
                                         run: seq<Attempt>, r: Result<DeploymentOutcome>, after: Chain)
    requires FailoverSpec(k, signer, request, candidates, run, r) && Run(c, Flatten(run), after)
    requires FailedCancels(Flatten(run)) == {}
    ensures Live(after) == Live(c) + OutcomeIds(r) <==> CreatedIds(Flatten(run)) <= ObservedIds(Flatten(run))
    ensures CreatedIds(Flatten(run)) <= ObservedIds(Flatten(run)) ==> Live(c) !! OutcomeIds(r)
  {
    hide AttemptSpec, RunSpec, AttemptEvents, AttemptIds, Flatten, FoundIds, Run, CreatedIds, ObservedIds, OutcomeIds;
    var tr := Flatten(run);
    if CreatedIds(tr) <= ObservedIds(tr) {
      ObservedRunIsExact(c, k, signer, request, candidates, run, r, after);
    } else {
      var id :| id in CreatedIds(tr) && id !in ObservedIds(tr);
      UnseenCreationStays(c, k, signer, request, candidates, run, r, after, id);
    }
  }

  lemma UnseenCreationStays(c: Chain, k: Crypto, signer: nat, request: Request, candidates: seq<ProxyNode>,
                            run: seq<Attempt>, r: Result<DeploymentOutcome>, after: Chain, id: nat)
    requires FailoverSpec(k, signer, request, candidates, run, r) && Run(c, Flatten(run), after)
    requires id in CreatedIds(Flatten(run)) - ObservedIds(Flatten(run))
    ensures id in Live(after) && id !in Live(c) && id !in OutcomeIds(r)
  {
    hide AttemptSpec, RunSpec, AttemptEvents, AttemptIds, Flatten, FoundIds, Run, CreatedIds, ObservedIds;
    var tr := Flatten(run);
    RunObserved(k, signer, request, candidates, run);
    forall e | e in tr && e.Cancelled? ensures e.id != id {
      var _ := RunCancels(k, signer, request, candidates, run, e);
    }
    CreatedAreFresh(c, tr, after, id);
    if id in OutcomeIds(r) {
      var n := |run| - 1;
      RunAttempt(k, signer, request, candidates, run, n);
      OutcomeIdsOf(k, signer, request, run[n]);
      InSomeFound(run, id);
    }
  }

  lemma ObservedRunIsExact(c: Chain, k: Crypto, signer: nat, request: Request, candidates: seq<ProxyNode>,
                           run: seq<Attempt>, r: Result<DeploymentOutcome>, after: Chain)
    requires FailoverSpec(k, signer, request, candidates, run, r) && Run(c, Flatten(run), after)
    requires FailedCancels(Flatten(run)) == {}
    requires CreatedIds(Flatten(run)) <= ObservedIds(Flatten(run))
    ensures Live(after) == Live(c) + OutcomeIds(r)
    ensures Live(c) !! OutcomeIds(r)
  {
    hide AttemptSpec, RunSpec, AttemptEvents, AttemptIds, Flatten, FoundIds, Run, CreatedIds, ObservedIds, OutcomeIds;
    var tr := Flatten(run);
    RunObserved(k, signer, request, candidates, run);
    RunCounts(c, k, signer, request, candidates, run, after);
    Pigeonhole(FoundIds(run), CreatedIds(tr));
    forall id | id in Live(after) ensures id in Live(c) + OutcomeIds(r) {
      if id !in Live(c) { SurvivorsAreAccountedFor(c, k, signer, request, candidates, run, r, after, id); }
    }
    forall id | id in Live(c) ensures id in Live(after) {
      if id !in Live(after) {
        LostWereCancelled(c, tr, after, id);
        var e :| e in tr && e.Cancelled? && e.id == id;
        var _ := RunCancels(k, signer, request, candidates, run, e);
        CreatedAreFresh(c, tr, after, id);
      }
    }
    forall id | id in OutcomeIds(r) ensures id in Live(after) && id !in Live(c) {
      OutcomeSurvives(c, k, signer, request, candidates, run, r, after, id);
    }
  }

  /** When ids found are distinct and all created, no rollback can have hit the outcome's. */
  lemma OutcomeSurvives(c: Chain, k: Crypto, signer: nat, request: Request, candidates: seq<ProxyNode>,
                        run: seq<Attempt>, r: Result<DeploymentOutcome>, after: Chain, id: nat)
    requires FailoverSpec(k, signer, request, candidates, run, r) && Run(c, Flatten(run), after)
    requires Distinct(FoundIds(run)) && Elements(FoundIds(run)) == CreatedIds(Flatten(run))
    requires id in OutcomeIds(r)
    ensures id in Live(after) && id !in Live(c)
  {
    hide AttemptSpec, RunSpec, AttemptEvents, AttemptIds, Flatten, FoundIds, Run, CreatedIds;
    var tr := Flatten(run);
    var n := |run| - 1;
    RunAttempt(k, signer, request, candidates, run, n);
    OutcomeIdsOf(k, signer, request, run[n]);
    InSomeFound(run, id);
    forall e | e in tr && e.Cancelled? ensures e.id != id {
      var i := RunCancels(k, signer, request, candidates, run, e);
      if e.id == id { FoundTwice(run, i, n, id); }
    }
    CreatedAreFresh(c, tr, after, id);
  }

  lemma {:induction false} FoundTwice(run: seq<Attempt>, i: nat, n: nat, id: nat)
    requires i < n == |run| - 1 && id in AttemptIds(run[i]) && id in AttemptIds(run[n])
    ensures !Distinct(FoundIds(run))
  {
    hide AttemptIds;
    var before, last := FoundIds(run[..n]), AttemptIds(run[n]);
    assert id in AttemptIds(run[..n][i]);
    InSomeFound(run[..n], id);
    assert id in before;
    var x :| 0 <= x < |before| && before[x] == id;
    var y :| 0 <= y < |last| && last[y] == id;
    assert FoundIds(run)[x] == FoundIds(run)[|before| + y] == id;
  }

  /** One call undoes the other: after a successful run whose creations were all observed, a
      successful `cancel_deployment_outcome` leaves the live contracts as they were at the start. */
  lemma CancelUndoesDeploy(c: Chain, k: Crypto, signer: nat, request: Request, candidates: seq<ProxyNode>,
                           run: seq<Attempt>, o: DeploymentOutcome, deployed: Chain, tr: seq<Event>, after: Chain)
    requires FailoverSpec(k, signer, request, candidates, run, Ok(o)) && Run(c, Flatten(run), deployed)
    requires FailedCancels(Flatten(run)) == {} && CreatedIds(Flatten(run)) <= ObservedIds(Flatten(run))
    requires CancelOutcomeSpec(o, tr, Ok(())) && Run(deployed, tr, after)
    ensures Live(after) == Live(c)
  {
    ObservedRunIsExact(c, k, signer, request, candidates, run, Ok(o), deployed);
    hide FailoverSpec, Flatten, FailedCancels, CreatedIds, ObservedIds;
    CancelKillsOutcome(o, deployed, tr, after);
  }

  lemma CancelKillsOutcome(o: DeploymentOutcome, c: Chain, tr: seq<Event>, after: Chain)
    requires CancelOutcomeSpec(o, tr, Ok(())) && Run(c, tr, after)
    ensures Live(after) == Live(c) - OutcomeIds(Ok(o))
  {
    hide Run;
    forall id | id in OutcomeIds(Ok(o)) ensures id !in Live(after) {
      var e := CancelOf(o, tr, id);
      CancelledStayDead(c, tr, after, e);
    }
    forall id | id in Live(after) ensures id in Live(c) {
      if id !in Live(c) {
        LiveWereCreated(c, tr, after, id);
        var e :| e in tr && e.Created?;
        var j :| 0 <= j < |tr| && tr[j] == e;
        CancelEvents(o, tr, j);
      }
    }
    forall id | id in Live(c) && id !in OutcomeIds(Ok(o)) ensures id in Live(after) {
      if id !in Live(after) {
        LostWereCancelled(c, tr, after, id);
        var e :| e in tr && e.Cancelled? && e.id == id;
        var j :| 0 <= j < |tr| && tr[j] == e;
        CancelEvents(o, tr, j);
      }
    }
  }

  lemma CancelEvents(o: DeploymentOutcome, tr: seq<Event>, j: nat)
    requires CancelOutcomeSpec(o, tr, Ok(())) && j < |tr|
    ensures !tr[j].Created? && (tr[j].Cancelled? ==> tr[j].id in OutcomeIds(Ok(o)))
  {
    var i := j / 2;
    assert j == 2 * i || j == 2 * i + 1;
  }

  lemma CancelOf(o: DeploymentOutcome, tr: seq<Event>, id: nat) returns (e: Event)
    requires CancelOutcomeSpec(o, tr, Ok(())) && id in OutcomeIds(Ok(o))
    ensures e in tr && e.Cancelled? && e.ok && e.id == id
  {
    var i := if id == o.vmContractId then 0 else if o.vmContractId != 0 then 1 else 0;
    e := tr[2 * i + 1];
  }
}
