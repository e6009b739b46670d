/** Which answers of a node are waited out, and which end a wait. */
module Retries {
  import opened GridErrors
  import opened Text
  import opened Deployments
  import opened DeployTrace

  /** What a node that is still working, or a relay that lost the reply, says to a call. */
  function Texts(call: string): set<string> {
    {"deployment not found", "contract not found", "relay closed before " + call + " response",
     "rmb timeout for " + call}
  }

  /** A backend error with one of these texts in it, whatever surrounds the text. */
  ghost predicate StillWorking(call: string, e: GridError) {
    exists before, text, rest :: text in Texts(call) && e == Backend(before + text + rest)
  }

  lemma ContainsIff(text: string, part: string)
    ensures Contains(text, part) <==> exists before, rest :: text == before + part + rest
  {
    if i :| 0 <= i <= |text| && OccursAt(text, part, i) {
      assert text == text[..i] + part + text[i + |part|..];
    }
    if before, rest :| text == before + part + rest {
      assert OccursAt(text, part, |before|);
    }
  }

  lemma RetryableIff(call: string, e: GridError)
    ensures Retryable(call, e) <==> StillWorking(call, e)
  {
    if e.Backend? {
      forall text | text in Texts(call) ensures Contains(e.message, text) ==> StillWorking(call, e) {
        ContainsIff(e.message, text);
        if Contains(e.message, text) {
          var before, rest :| e.message == before + text + rest;
          assert e == Backend(before + text + rest);
        }
      }
      if before, text, rest :| text in Texts(call) && e == Backend(before + text + rest) {
        ContainsIff(e.message, text);
      }
    }
  }

  /** A read that failed for another reason than that the node is still working. */
  ghost predicate FailsOtherwise(e: Event) {
    || (e.Got? && e.got.Err? && !StillWorking("zos.deployment.get", e.got.error))
    || (e.Polled? && e.got.Err? && !StillWorking("zos.deployment.changes", e.got.error))
  }

  /** An answer that cannot be read as workloads. */
  predicate Unreadable(e: Event) {
    (e.Got? || e.Polled?) && e.got.Ok? && ExtractWorkloads(e.got.value).Err?
  }

  lemma FatalIff(e: Event)
    requires e.Got?
    ensures FatalGet(e) <==> FailsOtherwise(e)
  {
    hide Retryable, StillWorking;
    if e.got.Err? { RetryableIff("zos.deployment.get", e.got.error); }
  }

  lemma BreaksIff(e: Event)
    ensures Breaks(e) <==> FailsOtherwise(e) || Unreadable(e)
  {
    hide Retryable, StillWorking, ExtractWorkloads;
    if e.Got? && e.got.Err? { RetryableIff("zos.deployment.get", e.got.error); }
    if e.Polled? && e.got.Err? { RetryableIff("zos.deployment.changes", e.got.error); }
  }

  // ---- Waiting for the deployment ----

  /** A node that only ever says it is still working is given up on after ten sends; any other error ends
      the wait at once, as its result. */
  lemma ConfirmingGivesUpAfterTenSends(twin: nat, d: DeployDeployment, tr: seq<Event>, r: Result<()>)
    requires ConfirmSpec(twin, d, tr, r)
    ensures r.Err? && (forall e :: e in tr ==> !FailsOtherwise(e)) ==> Count(tr, IsSent) == 10
    ensures forall i :: 0 <= i < |tr| && FailsOtherwise(tr[i]) ==>
              i == |tr| - 1 && r == Err(tr[i].got.error)
  {
    hide FailsOtherwise, FatalGet, Count, Confirms, Undecided, Phase.Fits, Phase.Decides;
    var n := |tr| - 1;
    assert tr[n] in tr;
    forall i | 0 <= i <= n ensures FailsOtherwise(tr[i]) <==> FatalGet(tr[i]) {
      PhaseEvents(Sending(twin, d), tr, r.Ok?, i);
      FatalWhileSending(twin, d, tr[i]);
    }
    PhaseEvents(Sending(twin, d), tr, r.Ok?, n);
    FatalWhileSending(twin, d, tr[n]);
  }

  lemma FatalWhileSending(twin: nat, d: DeployDeployment, e: Event)
    requires Sending(twin, d).Fits(e)
    ensures FailsOtherwise(e) <==> FatalGet(e)
    ensures FatalGet(e) ==> !Sending(twin, d).Decides(e)
  {
    hide StillWorking, Retryable, Contains;
    if e.Got? { FatalIff(e); }
  }

  /** The node shows the deployment, or refuses it because it has it already. */
  ghost predicate HasIt(e: Event) {
    || (e.Got? && e.got.Ok?)
    || (e.Sent? && exists before, rest :: e.sent == Err(Backend(before + "exists" + rest)))
  }

  lemma ConfirmsIff(e: Event)
    ensures Confirms(e) <==> HasIt(e)
  {
    if e.Sent? && e.sent.Err? && e.sent.error.Backend? {
      ContainsIff(e.sent.error.message, "exists");
      if Contains(e.sent.error.message, "exists") {
        var before, rest :| e.sent.error.message == before + "exists" + rest;
        assert e.sent == Err(Backend(before + "exists" + rest));
      }
    }
  }

  /** The wait succeeds with the first event that shows the node has the deployment, and with no other: a
      deploy call that is merely accepted never suffices. */
  lemma ConfirmedByFirstSight(twin: nat, d: DeployDeployment, tr: seq<Event>, r: Result<()>)
    requires ConfirmSpec(twin, d, tr, r)
    ensures r.Ok? <==> HasIt(tr[|tr| - 1])
    ensures forall i :: 0 <= i < |tr| - 1 ==> !HasIt(tr[i])
  {
    hide HasIt, Confirms;
    forall i | 0 <= i < |tr| ensures HasIt(tr[i]) ==> r.Ok? && i == |tr| - 1 {
      PhaseEvents(Sending(twin, d), tr, r.Ok?, i);
      ConfirmsIff(tr[i]);
    }
    ConfirmsIff(tr[|tr| - 1]);
  }

  // ---- Waiting for the workloads ----

  /** The same for the wait for workloads, which an unreadable answer ends too; otherwise it times out. */
  lemma SettlingGivesUpOnTime(twin: nat, id: nat, tr: seq<Event>, r: Result<seq<DeployWorkload>>)
    requires SettleSpec(twin, id, tr, r)
    ensures (forall e :: e in tr ==> !FailsOtherwise(e) && !Unreadable(e)) ==> !Breaks(tr[|tr| - 1])
    ensures forall i :: 0 <= i < |tr| && FailsOtherwise(tr[i]) ==> i == |tr| - 1 && r == Err(tr[i].got.error)
    ensures forall i :: 0 <= i < |tr| && Unreadable(tr[i]) ==> i == |tr| - 1 && r.Err?
  {
    hide Count, FailsOtherwise, Unreadable, Breaks;
    var n := |tr| - 1;
    assert tr[n] in tr;
    forall i | 0 <= i <= n ensures Breaks(tr[i]) <==> FailsOtherwise(tr[i]) || Unreadable(tr[i]) { BreaksIff(tr[i]); }
    if Breaks(tr[n]) { BreakFails(twin, id, tr[n]); }
  }

  lemma BreakFails(twin: nat, id: nat, e: Event)
    requires Breaks(e)
    ensures !Settling(twin, id).Decides(e)
    ensures FailsOtherwise(e) ==> BreakError(e) == e.got.error
  {
    hide StillWorking, Retryable, ExtractWorkloads, Settled;
  }
}
