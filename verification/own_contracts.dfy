/** What a run tears down is its own, as long as lookups are truthful and hashes do not clash. */
module OwnContracts {
  import opened GridErrors
  import opened Deployments
  import opened DeployTrace
  import opened Placement
  import opened Accounting
  import opened DeployOrder

  // ---- Parts of a trace ----

  lemma {:induction false} ReplayAppend(c: Chain, a: seq<Event>, b: seq<Event>)
    ensures Replay(c, a + b) == Replay(Replay(c, a), b)
    decreases |b|
  {
    if b == [] {
      assert a + b == a;
    } else {
      assert (a + b)[..|a + b| - 1] == a + b[..|b| - 1];
      ReplayAppend(c, a, b[..|b| - 1]);
    }
  }

  /** A part of a truthful, clash-free trace is so from where it starts. */
  lemma FairInside(c: Chain, pre: seq<Event>, mid: seq<Event>, post: seq<Event>)
    requires Truthful(c, pre + mid + post) && ClashFree(c, pre + mid + post)
    ensures Truthful(Replay(c, pre), mid) && ClashFree(Replay(c, pre), mid)
  {
    hide Replay, Unambiguous;
    var tr, m := pre + mid + post, Replay(c, pre);
    forall j | 0 <= j <= |mid| ensures Replay(m, mid[..j]) == Replay(c, tr[..|pre| + j]) {
      assert tr[..|pre| + j] == pre + mid[..j];
      ReplayAppend(c, pre, mid[..j]);
    }
    forall j | 0 <= j < |mid| && Hit(mid[j])
      ensures var n, id := Replay(m, mid[..j]), mid[j].reply.ids[0];
              id in Live(n) && n[id].node == mid[j].node && n[id].hash == mid[j].hash
    {
      assert tr[|pre| + j] == mid[j] && Hit(tr[|pre| + j]);
    }
    forall j | 0 <= j < |mid| && mid[j].Created? && mid[j].ok
      ensures Unambiguous(Replay(m, mid[..j + 1]))
    {
      assert tr[|pre| + j] == mid[j];
      assert tr[..|pre| + j + 1] == tr[..|pre| + (j + 1)];
    }
  }

  // ---- One stage, one attempt ----

  /** A stage whose wait returned begins with its submission and that wait. */
  lemma {:induction false} StageOpens(s: Stage)
    requires |s| >= 2 && s[0].Anchor? && s[1].Wait?
    ensures [s[0].create] + s[1].trace <= StageEvents(s)
    decreases |s|
  {
    if |s| == 2 {
      assert s[..1][..0] == [];
      assert StageEvents(s[..1]) == [s[0].create];
    } else {
      StageOpens(s[..|s| - 1]);
    }
  }

  /** The id a stage's wait returned is the one its own submission created. */
  lemma StageFindsItsOwn(c: Chain, k: Crypto, signer: nat, node: nat, twin: nat, s: Stage, after: Chain, id: nat)
    requires StageSpec(k, signer, node, twin, s) && id in StageIds(s)
    requires Run(c, StageEvents(s), after) && Truthful(c, StageEvents(s)) && ClashFree(c, StageEvents(s))
    ensures s[0].Anchor? && s[0].create.Created? && id == s[0].create.id && id in CreatedIds(StageEvents(s))
  {
    hide StageSpec, StageEvents, HashHex, HashBytes, WaitSpec, Truthful, ClashFree, Run, Unambiguous, CreatedIds;
    StageAnchors(k, signer, node, twin, s);
    StageFollows(k, signer, node, twin, s, 1);
    StageOpens(s);
    var create, wait := s[0].create, s[1].trace;
    var rest := StageEvents(s)[1 + |wait|..];
    assert StageEvents(s) == [] + ([create] + wait) + rest;
    FairInside(c, [], [create] + wait, rest);
    assert StageEvents(s) == [] + [create] + (wait + rest);
    var _, _ := RunAt(c, StageEvents(s), after, create);
    FirstCreation(c, create, wait + rest, after);
    FirstIsClashFree(c, create, wait + rest);
    TruthfulLookupFindsTheNewContract(c, node, s[0].hash, create, wait, id);
    OkCreationHasId(c, StageEvents(s), after, create);
  }

  lemma FirstCreation(c: Chain, create: Event, rest: seq<Event>, after: Chain)
    requires Run(c, [] + [create] + rest, after)
    ensures Admissible(c, create)
  {
    RunSplit(c, [] + [create], rest, after);
    assert ([] + [create])[..0] == [];
  }

  lemma FirstIsClashFree(c: Chain, create: Event, rest: seq<Event>)
    requires ClashFree(c, [] + [create] + rest) && create.Created? && create.ok
    ensures Unambiguous(Step(c, create))
  {
    hide Unambiguous;
    var tr := [] + [create] + rest;
    assert tr[0] == create && tr[..0 + 1] == [create] && [create][..0] == [];
    assert Replay(c, [create]) == Step(c, create);
  }

  /** The contract this attempt submitted for its machine. */
  predicate IsMachineOf(a: Attempt, id: nat) {
    a.vm != [] && a.vm[0].Anchor? && a.vm[0].create.Created? && id == a.vm[0].create.id
  }

  lemma AttemptFindsItsOwn(c: Chain, k: Crypto, signer: nat, request: Request, a: Attempt, after: Chain, id: nat)
    requires AttemptSpec(k, signer, request, a) && id in AttemptIds(a)
    requires Run(c, AttemptEvents(a), after) && Truthful(c, AttemptEvents(a)) && ClashFree(c, AttemptEvents(a))
    ensures id in CreatedIds(AttemptEvents(a))
    ensures a.network == [] ==> IsMachineOf(a, id)
  {
    hide AttemptSpec, StageSpec, RollbackSpec, StageEvents, StageIds, Run, Truthful, ClashFree, Replay;
    AttemptStages(k, signer, request, a);
    NoStageEvents();
    var inNetwork := id in StageIds(a.network);
    var s := if inNetwork then a.network else a.vm;
    var pre := if inNetwork then a.ports else a.ports + StageEvents(a.network);
    var post := if inNetwork then (StageEvents(a.vm) + a.readback) + a.rollback else a.readback + a.rollback;
    assert AttemptEvents(a) == pre + StageEvents(s) + post;
    FairInside(c, pre, StageEvents(s), post);
    RunSplit(c, pre + StageEvents(s), post, after);
    RunSplit(c, pre, StageEvents(s), Replay(c, pre + StageEvents(s)));
    StageFindsItsOwn(Replay(c, pre), k, signer, a.node, a.twin, s, Replay(c, pre + StageEvents(s)), id);
    assert forall e :: e in StageEvents(s) ==> e in AttemptEvents(a);
  }

  // ---- A run ----

  /** Where attempt `i` sits in the run's trace. */
  lemma {:induction false} AttemptInside(run: seq<Attempt>, i: nat) returns (pre: seq<Event>, post: seq<Event>)
    requires i < |run|
    ensures Flatten(run) == pre + AttemptEvents(run[i]) + post
    decreases |run|
  {
    hide AttemptEvents;
    var n := |run| - 1;
    if i == n {
      pre, post := Flatten(run[..n]), [];
      assert Flatten(run) == pre + AttemptEvents(run[i]) + [];
    } else {
      var before := run[..n];
      pre, post := AttemptInside(before, i);
      assert before[i] == run[i];
      post := post + AttemptEvents(run[n]);
      assert Flatten(run) == pre + AttemptEvents(run[i]) + post;
    }
  }

  /** With truthful lookups and no clashes, rollback touches only contracts created in the same attempt,
      none of which was on the chain before the run. */
  lemma RollbackTouchesOnlyItsOwn(c: Chain, k: Crypto, signer: nat, request: Request, candidates: seq<ProxyNode>,
                                  run: seq<Attempt>, after: Chain, i: nat, e: Event)
    requires RunSpec(k, signer, request, candidates, run) && Run(c, Flatten(run), after)
    requires Truthful(c, Flatten(run)) && ClashFree(c, Flatten(run))
    requires i < |run| && e in AttemptEvents(run[i]) && (e.Cancelled? || e.Dropped?)
    ensures e.id in CreatedIds(AttemptEvents(run[i])) && e.id !in c
    ensures run[i].network == [] ==> IsMachineOf(run[i], e.id)
  {
    hide RunSpec, AttemptSpec, AttemptEvents, AttemptIds, Flatten, Run, Truthful, ClashFree, Replay;
    RunAttempt(k, signer, request, candidates, run, i);
    AttemptEvent(k, signer, request, run[i], e);
    var pre, post := AttemptInside(run, i);
    var ev := AttemptEvents(run[i]);
    FairInside(c, pre, ev, post);
    RunSplit(c, pre + ev, post, after);
    RunSplit(c, pre, ev, Replay(c, pre + ev));
    AttemptFindsItsOwn(Replay(c, pre), k, signer, request, run[i], Replay(c, pre + ev), e.id);
    assert forall x :: x in ev ==> x in Flatten(run);
    CreatedAreFresh(c, Flatten(run), after, e.id);
  }

  /** So an existing network is never cancelled: what a run into one tears down is its own machines. */
  lemma ExistingNetworkIsNeverCancelled(c: Chain, k: Crypto, signer: nat, request: Request, candidates: seq<ProxyNode>,
                                        run: seq<Attempt>, after: Chain, e: Event) returns (i: nat)
    requires RunSpec(k, signer, request, candidates, run) && Run(c, Flatten(run), after) && !request.CreatesNetwork()
    requires Truthful(c, Flatten(run)) && ClashFree(c, Flatten(run))
    requires e in Flatten(run) && (e.Cancelled? || e.Dropped?)
    ensures i < |run| && e in AttemptEvents(run[i]) && e.id !in c
    ensures IsMachineOf(run[i], e.id)
  {
    hide RunSpec, AttemptEvents, Flatten, Run, Truthful, ClashFree;
    InSomeAttempt(run, e);
    i :| 0 <= i < |run| && e in AttemptEvents(run[i]);
    RunAttempt(k, signer, request, candidates, run, i);
    assert run[i].network == [] by { hide StageSpec, RollbackSpec, MachineSpec; }
    hide AttemptSpec;
    RollbackTouchesOnlyItsOwn(c, k, signer, request, candidates, run, after, i, e);
  }
}
