/** Choosing the candidate nodes to deploy on. */
module Placement {
  import opened GridErrors
  import opened Text
  import opened DeployTrace

  const MAX_PLACEMENT_CANDIDATES := 5

  // ---- Candidate nodes ----

  datatype NodeRequirements = NodeRequirements(minCru: nat, minMemoryBytes: nat, minRootfsBytes: nat)

  function SaturatingSub(a: nat, b: nat): nat {
    if a >= b then a - b else 0
  }

  predicate HasRoom(n: ProxyNode, r: NodeRequirements) {
    && SaturatingSub(n.total.mru, n.used.mru) >= r.minMemoryBytes
    && SaturatingSub(n.total.sru, n.used.sru) >= r.minRootfsBytes
    && SaturatingSub(n.total.cru, n.used.cru) >= r.minCru
  }

  predicate UsablePublicIpv4(n: ProxyNode) {
    Trim(n.publicConfig.ipv4) != "" && Trim(n.publicConfig.gw4) != "" && Trim(n.publicConfig.domain) != ""
  }

  predicate UsablePublicIpv6(n: ProxyNode) {
    Trim(n.publicConfig.ipv6) != "" && Trim(n.publicConfig.gw6) != ""
  }

  datatype Needs = LightNeeds(room: NodeRequirements) | FullNeeds(room: NodeRequirements, ipv4: bool, ipv6: bool) {
    predicate Accepts(n: ProxyNode) {
      && n.status == "up" && n.healthy && HasRoom(n, room)
      && match this
         case LightNeeds(_) => "network-light" in n.features && "zmachine-light" in n.features
         case FullNeeds(_, ipv4, ipv6) =>
           && "network" in n.features && "zmachine" in n.features && "volume" in n.features
           && (ipv4 ==> "ip" in n.features && n.farmFreeIps != 0 && UsablePublicIpv4(n))
           && (ipv6 ==> ("ipv4" in n.features || "ip" in n.features) && n.farmFreeIps != 0 && UsablePublicIpv6(n))
    }
  }

  /** A light machine needs room; a full one also what its public addresses take. */
  function NeedsOf(request: Request, room: NodeRequirements): Needs {
    match request
    case LightRequest(_, _, _, _) => LightNeeds(room)
    case FullRequest(_, _, _, vm) => FullNeeds(room, vm.publicIpv4, vm.publicIpv6)
  }

  // ---- What is accepted, in numbers and features ----

  /** Something besides white space. */
  predicate NonBlank(s: string) {
    exists i :: 0 <= i < |s| && !IsSpace(s[i])
  }

  lemma {:induction false} TrimEndKeepsNonBlank(s: string)
    ensures NonBlank(s) <==> TrimEnd(s) != ""
  {
    if s != [] && IsSpace(s[|s| - 1]) {
      TrimEndKeepsNonBlank(s[..|s| - 1]);
      assert NonBlank(s) <==> NonBlank(s[..|s| - 1]);
    } else if s != [] {
      assert !IsSpace(s[|s| - 1]);
    }
  }

  lemma {:induction false} TrimStartKeepsNonBlank(s: string)
    ensures NonBlank(s) <==> NonBlank(TrimStart(s))
  {
    if s != [] && IsSpace(s[0]) {
      TrimStartKeepsNonBlank(s[1..]);
      if NonBlank(s) {
        var i :| 0 <= i < |s| && !IsSpace(s[i]);
        assert s[1..][i - 1] == s[i];
      }
    }
  }

  lemma TrimKeepsNonBlank(s: string)
    ensures NonBlank(s) <==> Trim(s) != ""
  {
    TrimStartKeepsNonBlank(s);
    TrimEndKeepsNonBlank(TrimStart(s));
  }

  /** The total holds what is used and what is needed; needing nothing always fits. */
  predicate Fits(total: nat, used: nat, needed: nat) {
    needed == 0 || used + needed <= total
  }

  predicate HasAll(n: ProxyNode, features: set<string>) {
    forall f :: f in features ==> f in n.features
  }

  /** Exactly the nodes that are up and healthy, offer the features, have the free capacity, and for each wanted
      address a free one of the farm and a complete public configuration. */
  lemma AcceptsIff(n: ProxyNode, needs: Needs)
    ensures needs.Accepts(n) <==>
              && n.status == "up" && n.healthy
              && Fits(n.total.cru, n.used.cru, needs.room.minCru)
              && Fits(n.total.mru, n.used.mru, needs.room.minMemoryBytes)
              && Fits(n.total.sru, n.used.sru, needs.room.minRootfsBytes)
              && HasAll(n, if needs.LightNeeds? then {"network-light", "zmachine-light"}
                           else {"network", "zmachine", "volume"})
              && (needs.FullNeeds? && needs.ipv4 ==>
                    && HasAll(n, {"ip"}) && n.farmFreeIps > 0 && NonBlank(n.publicConfig.ipv4)
                    && NonBlank(n.publicConfig.gw4) && NonBlank(n.publicConfig.domain))
              && (needs.FullNeeds? && needs.ipv6 ==>
                    && (HasAll(n, {"ip"}) || HasAll(n, {"ipv4"})) && n.farmFreeIps > 0
                    && NonBlank(n.publicConfig.ipv6) && NonBlank(n.publicConfig.gw6))
  {
    TrimKeepsNonBlank(n.publicConfig.ipv4);
    TrimKeepsNonBlank(n.publicConfig.gw4);
    TrimKeepsNonBlank(n.publicConfig.domain);
    TrimKeepsNonBlank(n.publicConfig.ipv6);
    TrimKeepsNonBlank(n.publicConfig.gw6);
    hide Trim, NonBlank;
  }

  // ---- Picking ----

  function Accepted(nodes: seq<ProxyNode>, needs: Needs): seq<ProxyNode> {
    if nodes == [] then []
    else
      var last := nodes[|nodes| - 1];
      Accepted(nodes[..|nodes| - 1], needs) + (if needs.Accepts(last) then [last] else [])
  }

  /** `pick_nodes` and `pick_zmachine_nodes` on the proxy's answer. */
  function PickNodes(nodes: seq<ProxyNode>, needs: Needs): Result<seq<ProxyNode>> {
    var all := Accepted(nodes, needs);
    var candidates := if |all| > MAX_PLACEMENT_CANDIDATES then all[..MAX_PLACEMENT_CANDIDATES] else all;
    if candidates == [] then Err(NotFound("no node with the required capabilities and free resources"))
    else Ok(candidates)
  }

  ghost predicate Rising(at: seq<nat>) {
    forall i, j :: 0 <= i < j < |at| ==> at[i] < at[j]
  }

  /** The accepted nodes and no others, each at its own position and in proxy order. */
  lemma {:induction false} AcceptedInOrder(nodes: seq<ProxyNode>, needs: Needs) returns (at: seq<nat>)
    ensures |at| == |Accepted(nodes, needs)| && Rising(at)
    ensures forall i :: 0 <= i < |at| ==> at[i] < |nodes| && nodes[at[i]] == Accepted(nodes, needs)[i]
    ensures forall k :: 0 <= k < |nodes| ==> (needs.Accepts(nodes[k]) <==> k in at)
  {
    at := [];
    if nodes != [] {
      var n := |nodes| - 1;
      var before := AcceptedInOrder(nodes[..n], needs);
      at := before + if needs.Accepts(nodes[n]) then [n] else [];
      forall k | 0 <= k < |nodes| ensures needs.Accepts(nodes[k]) <==> k in at {
        if k < n {
          assert nodes[k] == nodes[..n][k];
          assert k in at <==> k in before;
        }
      }
    }
  }

  /** `picked` are accepted nodes in proxy order, and none before one of them was skipped. */
  ghost predicate Placed(nodes: seq<ProxyNode>, needs: Needs, picked: seq<ProxyNode>, at: seq<nat>) {
    && |at| == |picked| <= 5 && Rising(at)
    && (forall i :: 0 <= i < |at| ==> at[i] < |nodes| && nodes[at[i]] == picked[i] && needs.Accepts(picked[i]))
    && (forall k :: 0 <= k < |nodes| && needs.Accepts(nodes[k]) && k !in at ==> SkippedLate(at, k))
  }

  /** Position `k` was left out only because five earlier ones were taken. */
  ghost predicate SkippedLate(at: seq<nat>, k: nat) {
    |at| == 5 && forall i :: 0 <= i < |at| ==> at[i] < k
  }

  /** Placement yields at most five accepted nodes in proxy order, skips none that comes before one
      it yields, and fails exactly when the proxy lists no acceptable node. */
  lemma PicksFirstAccepted(nodes: seq<ProxyNode>, needs: Needs)
    ensures PickNodes(nodes, needs).Err? <==> forall k :: 0 <= k < |nodes| ==> !needs.Accepts(nodes[k])
    ensures PickNodes(nodes, needs).Ok? ==> exists at :: Placed(nodes, needs, PickNodes(nodes, needs).value, at)
  {
    var all := AcceptedInOrder(nodes, needs);
    if all == [] {
      forall k | 0 <= k < |nodes| ensures !needs.Accepts(nodes[k]) { assert k !in all; }
    } else {
      assert all[0] in all;
      assert needs.Accepts(nodes[all[0]]);
      TakesFirstFive(nodes, needs, all);
    }
  }

  lemma TakesFirstFive(nodes: seq<ProxyNode>, needs: Needs, all: seq<nat>)
    requires |all| == |Accepted(nodes, needs)| > 0 && Rising(all)
    requires forall i :: 0 <= i < |all| ==> all[i] < |nodes| && nodes[all[i]] == Accepted(nodes, needs)[i]
    requires forall k :: 0 <= k < |nodes| ==> (needs.Accepts(nodes[k]) <==> k in all)
    ensures exists at :: Placed(nodes, needs, PickNodes(nodes, needs).value, at)
  {
    var at := if |all| > MAX_PLACEMENT_CANDIDATES then all[..MAX_PLACEMENT_CANDIDATES] else all;
    assert forall i :: 0 <= i < |at| ==> at[i] == all[i];
    forall i | 0 <= i < |at| ensures needs.Accepts(nodes[at[i]]) { assert all[i] in all; }
    forall k | 0 <= k < |nodes| && needs.Accepts(nodes[k]) && k !in at ensures SkippedLate(at, k) {
      LeftOutIsLater(all, at, k);
    }
    assert Placed(nodes, needs, PickNodes(nodes, needs).value, at);
  }

  lemma LeftOutIsLater(all: seq<nat>, at: seq<nat>, k: nat)
    requires Rising(all) && k in all && k !in at
    requires at == if |all| > MAX_PLACEMENT_CANDIDATES then all[..MAX_PLACEMENT_CANDIDATES] else all
    ensures SkippedLate(at, k)
  {
    var j :| 0 <= j < |all| && all[j] == k;
    assert forall i :: 0 <= i < |at| ==> at[i] == all[i] && at[i] in at;
  }
}
