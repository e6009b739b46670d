/** The environment of the client: chain, grid proxy, nodes behind the relay, and the clock. Every
    answer is arbitrary within what the chain guarantees; time never runs backwards. */
module GridWorld {
  import opened GridErrors
  import opened HexCodec
  import opened Deployments
  import opened DeployTrace

  datatype Anchoring = Anchored | AnchoredUnseen(error: GridError) | Refused(error: GridError)
  datatype Cancelling = Done | DoneUnseen(error: GridError) | NotDone(error: GridError)

  lemma {:induction false} FreshId(ids: set<nat>) returns (id: nat)
    ensures id != 0 && forall i :: i in ids ==> i < id
  {
    if ids == {} {
      id := 1;
    } else {
      var x :| x in ids;
      var other := FreshId(ids - {x});
      id := if x < other then other else x + 1;
      assert forall i :: i in ids ==> i == x || i in ids - {x};
    }
  }

  class World {
    var chain: Chain
    var now: nat

    constructor (chain: Chain, now: nat)
      ensures this.chain == chain && this.now == now
    {
      this.chain, this.now := chain, now;
    }

    method Now() returns (t: nat)
      modifies this`now
      ensures t == now >= old(now)
    {
      var delay :| delay >= 0;
      now := now + delay;
      t := now;
    }

    method Sleep(ms: nat)
      modifies this`now
      ensures now >= old(now) + ms
    {
      var late :| late >= 0;
      now := now + ms + late;
    }

    /** `submit_create_node_contract`: the client may see a failure although the chain anchored. */
    method CreateNodeContract(node: nat, hash: string, data: string, ips: nat) returns (r: Result<()>, e: Event)
      requires |hash| == 32
      modifies this
      ensures now >= old(now)
      ensures e.Created? && e == Created(node, hash, data, ips, e.id, r.Ok?)
      ensures Admissible(old(chain), e) && chain == Step(old(chain), e)
    {
      var anchoring: Anchoring :| true;
      var id: nat := 0;
      if !anchoring.Refused? {
        ghost var unused := FreshId(chain.Keys);
        assert unused !in chain;
        id :| id != 0 && id !in chain;
      }
      e := Created(node, hash, data, ips, id, anchoring.Anchored?);
      chain := Step(chain, e);
      r := if anchoring.Anchored? then Ok(()) else Err(anchoring.error);
      var _ := Now();
    }

    method CancelContract(id: nat) returns (r: Result<()>, e: Event)
      modifies this
      ensures now >= old(now)
      ensures e.Cancelled? && e == Cancelled(id, e.done, r.Ok?)
      ensures Admissible(old(chain), e) && chain == Step(old(chain), e)
    {
      var answer: Cancelling :| true;
      var error: GridError :| true;
      var cancelling := if id in chain then answer else NotDone(error);
      e := Cancelled(id, !cancelling.NotDone?, cancelling.Done?);
      chain := Step(chain, e);
      r := if cancelling.Done? then Ok(()) else Err(cancelling.error);
      var _ := Now();
    }

    method LookUpContracts(node: nat, hash: string) returns (reply: LookupReply)
      modifies this`now
      ensures now >= old(now)
    {
      reply :| true;
      var _ := Now();
    }

    method DeployCall(twin: nat, d: DeployDeployment) returns (r: Result<()>)
      modifies this`now
      ensures now >= old(now)
    {
      r :| true;
      var _ := Now();
    }

    /** A `zos.deployment.get`, `.changes` or `.delete` call for a contract. */
    method ContractCall(twin: nat, command: string, id: nat) returns (r: Result<Payload>)
      modifies this`now
      ensures now >= old(now)
    {
      r :| true;
      var _ := Now();
    }

    method ListPortsCall(twin: nat) returns (r: Result<seq<nat>>)
      modifies this`now
      ensures now >= old(now)
    {
      r :| true;
      var _ := Now();
    }

    /** The grid proxy's node list. */
    method ListNodes() returns (r: Result<seq<ProxyNode>>)
      modifies this`now
      ensures now >= old(now)
    {
      r :| true;
      var _ := Now();
    }

    /** Seconds since the epoch, or an error when the clock is before it. */
    method UnixSeconds() returns (r: Result<nat>)
    {
      r :| true;
    }

    /** A generated WireGuard key, in base64. */
    method WireguardKey() returns (key: string)
    {
      key :| true;
    }

    method RandomBytes(n: nat) returns (bytes: seq<Byte>)
      ensures |bytes| == n
    {
      bytes := [];
      while |bytes| < n
        invariant |bytes| <= n
      {
        var b: Byte :| true;
        bytes := bytes + [b];
      }
    }
  }
}
