/** The free WireGuard port of a node. */
module Ports {
  import opened GridErrors

  const FIRST_PORT := 1024
  const PORT_LIMIT := 32767

  predicate AllUsed(used: seq<nat>) {
    forall p :: 1024 <= p < 32767 ==> p in used
  }

  predicate LeastFree(used: seq<nat>, port: nat) {
    1024 <= port < 32767 && port !in used && forall p :: 1024 <= p < port ==> p in used
  }

  /** `get_free_wg_port` on the node's list of used ports. */
  method FreePort(used: seq<nat>) returns (r: Result<nat>)
    ensures r.Ok? ==> LeastFree(used, r.value)
    ensures r.Err? <==> AllUsed(used)
    ensures |used| < 31743 ==> r.Ok?
  {
    for port := FIRST_PORT to PORT_LIMIT
      invariant forall p :: FIRST_PORT <= p < port ==> p in used
    {
      if port !in used { return Ok(port); }
    }
    AllPortsUsed(used);
    return Err(Backend("no free wireguard port found"));
  }

  /** A list that names every port of the range is at least as long as the range. */
  lemma AllPortsUsed(used: seq<nat>)
    requires AllUsed(used)
    ensures |used| >= 31743
  {
    CoversRange(used, FIRST_PORT, PORT_LIMIT);
  }

  lemma {:induction false} CoversRange(used: seq<nat>, lo: nat, hi: nat)
    requires lo <= hi
    requires forall p :: lo <= p < hi ==> p in used
    ensures |used| >= hi - lo
    decreases hi - lo
  {
    if lo < hi {
      var top := hi - 1;
      assert top in used;
      var i :| 0 <= i < |used| && used[i] == top;
      var rest := used[..i] + used[i + 1..];
      forall p | lo <= p < top ensures p in rest {
        assert p in used;
        var j :| 0 <= j < |used| && used[j] == p;
        assert rest[if j < i then j else j - 1] == p;
      }
      CoversRange(rest, lo, top);
    }
  }
}
