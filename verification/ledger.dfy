/** The in-memory chain of src/subi.rs: contracts, the per-node index, the hash index and the id allocator. */
module Ledgers {
  import opened GridErrors
  import opened Text
  import opened Workloads

  const U64_MAX: nat := 0xFFFF_FFFF_FFFF_FFFF

  datatype NodeContract = NodeContract(node: nat, publicIpsCount: nat, deploymentData: Metadata)

  datatype Kind = NameKind | NodeKind | RentKind

  datatype ContractType = ContractType(isName: bool, isNode: bool, isRent: bool, nodeContract: NodeContract,
                                       rentNode: nat) {
    function Kind(): Kind {
      if isName then NameKind else if isRent then RentKind else NodeKind
    }

    function NodeId(): Option<nat> {
      if isNode then Some(nodeContract.node) else if isRent then Some(rentNode) else None
    }
  }

  datatype Contract = Contract(contractId: nat, isCreated: bool, isDeleted: bool, contractType: ContractType)

  datatype Resources = Resources(cru: nat, mru: nat, hru: nat, sru: nat)

  datatype Node = Node(id: nat, isCertified: bool, resources: Resources)

  const NO_NODE_CONTRACT := NodeContract(0, 0, Unparsable(""))
  const NO_TYPE := ContractType(false, false, false, NO_NODE_CONTRACT, 0)

  function HashKey(node: nat, hash: string): string {
    Decimal(node) + ":" + hash
  }

  function NewContract(id: nat, node: nat, data: Metadata, ips: nat): Contract {
    Contract(id, true, false, NO_TYPE.(isNode := true, nodeContract := NodeContract(node, ips, data)))
  }

  // ---- The ledger as a value ----

  datatype Ledger = Ledger(contracts: map<nat, Contract>, nodes: map<nat, Node>, nodeContracts: map<nat, seq<nat>>,
                           hashes: map<string, nat>, next: nat)
  {
    /** `get_node_contracts`: a node that was never indexed has no contracts. */
    function Listed(node: nat): seq<nat> {
      if node in nodeContracts then nodeContracts[node] else []
    }

    function Lookup(node: nat, hash: string): Option<nat> {
      if HashKey(node, hash) in hashes then Some(hashes[HashKey(node, hash)]) else None
    }

    function AddNode(node: Node): Ledger {
      this.(nodes := nodes[node.id := node])
    }

    function AddContract(c: Contract): Ledger {
      this.(nodeContracts := match c.contractType.NodeId() {
                               case Some(n) => nodeContracts[n := Listed(n) + [c.contractId]]
                               case None => nodeContracts
                             },
            contracts := contracts[c.contractId := c],
            next := if c.contractId < next then next
                    else if c.contractId < U64_MAX then c.contractId + 1 else U64_MAX)
    }

    function Create(node: nat, data: Metadata, hash: string, ips: nat): (Ledger, Result<nat>) {
      if node !in nodes then (this, Err(NotFound("node " + Decimal(node))))
      else (Ledger(contracts[next := NewContract(next, node, data, ips)], nodes,
                   nodeContracts[node := Listed(node) + [next]], hashes[HashKey(node, hash) := next],
                   (next + 1) % (U64_MAX + 1)), Ok(next))
    }

    function Cancel(id: nat): (Ledger, Result<()>) {
      if id !in contracts then (this, Err(NotFound("contract " + Decimal(id))))
      else (this.(contracts := contracts[id := contracts[id].(isCreated := false, isDeleted := true)]), Ok(()))
    }

    // ---- The index invariant ----

    ghost predicate NodeListsExact() {
      forall n: nat, c: nat :: c in Listed(n) <==> c in contracts && contracts[c].contractType.NodeId() == Some(n)
    }

    ghost predicate NoRepeats() {
      forall n: nat, i, j :: 0 <= i < j < |Listed(n)| ==> Listed(n)[i] != Listed(n)[j]
    }

    /** What every reachable ledger keeps: ids below the allocator, each contract under its own id and
        never both created and deleted, and every node's list holding exactly its contracts, once. */
    ghost predicate Indexed() {
      && 0 < next <= U64_MAX
      && (forall c :: c in contracts ==> c < next && contracts[c].contractId == c)
      && (forall c :: c in contracts ==> !(contracts[c].isCreated && contracts[c].isDeleted))
      && NodeListsExact()
      && NoRepeats()
    }
  }

  const EMPTY := Ledger(map[], map[], map[], map[], 1)

  lemma AddNodeKeepsIndex(l: Ledger, node: Node)
    requires l.Indexed()
    ensures l.AddNode(node).Indexed()
  {
    var m := l.AddNode(node);
    assert forall n :: m.Listed(n) == l.Listed(n);
  }

  lemma CreateAnswers(l: Ledger, node: nat, data: Metadata, hash: string, ips: nat)
    ensures l.Create(node, data, hash, ips).1.Ok? <==> node in l.nodes
    ensures l.Create(node, data, hash, ips).0.nodes == l.nodes
  {
  }

  lemma CancelAnswers(l: Ledger, id: nat)
    ensures l.Cancel(id).1.Ok? <==> id in l.contracts
    ensures l.Cancel(id).1.Err? ==> l.Cancel(id).0 == l
    ensures l.Cancel(id).0.nodes == l.nodes && l.Cancel(id).0.contracts.Keys == l.contracts.Keys
  {
  }

  lemma CancelKeepsIndex(l: Ledger, id: nat)
    requires l.Indexed()
    ensures l.Cancel(id).0.Indexed()
  {
    var m := l.Cancel(id).0;
    assert forall n :: m.Listed(n) == l.Listed(n);
  }

  lemma AppendNoRepeats(l: Ledger, m: Ledger, n: nat, c: nat)
    requires l.NoRepeats() && c !in l.Listed(n)
    requires forall k :: m.Listed(k) == if k == n then l.Listed(n) + [c] else l.Listed(k)
    ensures m.NoRepeats()
  {
  }

  /** Creating on a known node hands out a fresh id; the index survives exactly when the allocator does
      not wrap. */
  lemma CreateKeepsIndexIff(l: Ledger, node: nat, data: Metadata, hash: string, ips: nat)
    requires l.Indexed() && node in l.nodes
    ensures var (m, r) := l.Create(node, data, hash, ips);
            r.Ok? && r.value !in l.contracts && r.value != 0 && (m.Indexed() <==> l.next < U64_MAX)
  {
    var m := l.Create(node, data, hash, ips).0;
    var id := l.next;
    assert forall k :: m.Listed(k) == if k == node then l.Listed(node) + [id] else l.Listed(k);
    assert id !in l.contracts;
    assert id !in l.Listed(node);
    AppendNoRepeats(l, m, node, id);
    if l.next < U64_MAX {
      assert m.next == l.next + 1;
    } else {
      assert m.next == 0 && !m.Indexed();
    }
  }

  predicate MayBeAdded(l: Ledger, c: Contract) {
    && (c.contractId in l.contracts ==> l.contracts[c.contractId].contractType.NodeId() == None)
    && c.contractId < U64_MAX
    && !(c.isCreated && c.isDeleted)
  }

  lemma AddContractListed(l: Ledger, c: Contract, k: nat)
    ensures l.AddContract(c).Listed(k)
            == l.Listed(k) + if c.contractType.NodeId() == Some(k) then [c.contractId] else []
  {
  }

  lemma AddedKeepsLists(l: Ledger, m: Ledger, c: Contract)
    requires l.NodeListsExact() && l.NoRepeats() && m.contracts == l.contracts[c.contractId := c]
    requires c.contractId in l.contracts ==> l.contracts[c.contractId].contractType.NodeId() == None
    requires forall k: nat ::
               m.Listed(k) == l.Listed(k) + if c.contractType.NodeId() == Some(k) then [c.contractId] else []
    ensures m.NodeListsExact() && m.NoRepeats()
  {
    var id, owner := c.contractId, c.contractType.NodeId();
    hide Ledger.Listed;
    assert forall n: nat :: id !in l.Listed(n);
    hide Ledger.NodeListsExact;
    if owner.Some? {
      AppendNoRepeats(l, m, owner.value, id);
    } else {
      assert forall k: nat :: m.Listed(k) == l.Listed(k);
    }
    assert m.NoRepeats();
    hide Ledger.NoRepeats;
    forall n: nat, x: nat
      ensures x in m.Listed(n) <==> x in m.contracts && m.contracts[x].contractType.NodeId() == Some(n)
    {
      assert x in l.Listed(n) <==> x in l.contracts && l.contracts[x].contractType.NodeId() == Some(n);
      assert x in m.Listed(n) <==> x in l.Listed(n) || (x == id && owner == Some(n));
    }
    assert m.NodeListsExact();
  }

  lemma AddedKeepsIndex(l: Ledger, c: Contract)
    requires l.Indexed() && MayBeAdded(l, c)
    ensures l.AddContract(c).Indexed()
  {
    var m := l.AddContract(c);
    forall k: nat
      ensures m.Listed(k) == l.Listed(k) + if c.contractType.NodeId() == Some(k) then [c.contractId] else []
    {
      AddContractListed(l, c, k);
    }
    hide Ledger.Listed, Ledger.NodeListsExact, Ledger.NoRepeats;
    AddedKeepsLists(l, m, c);
  }

  lemma DuplicateBreaksIndex(l: Ledger, c: Contract)
    requires l.Indexed() && c.contractId in l.contracts
    requires l.contracts[c.contractId].contractType.NodeId().Some?
    ensures !l.AddContract(c).Indexed()
  {
    var m, id := l.AddContract(c), c.contractId;
    var n := l.contracts[id].contractType.NodeId().value;
    assert id in l.Listed(n);
    AddContractListed(l, c, n);
    if c.contractType.NodeId() == Some(n) {
      var i :| 0 <= i < |l.Listed(n)| && l.Listed(n)[i] == id;
      assert m.Listed(n)[i] == m.Listed(n)[|l.Listed(n)|];
    } else {
      assert id in m.Listed(n) && m.contracts[id] == c;
    }
  }

  /** Inserting a contract by hand keeps the index exactly when its id is not already a node's
      contract, is below the largest id, and its state is consistent. */
  lemma AddContractKeepsIndexIff(l: Ledger, c: Contract)
    requires l.Indexed() && c.contractId <= U64_MAX
    ensures l.AddContract(c).Indexed() <==> MayBeAdded(l, c)
  {
    var m, id := l.AddContract(c), c.contractId;
    if MayBeAdded(l, c) {
      AddedKeepsIndex(l, c);
    } else if id in l.contracts && l.contracts[id].contractType.NodeId().Some? {
      DuplicateBreaksIndex(l, c);
    } else {
      assert id in m.contracts && m.contracts[id] == c;
    }
  }

  // ---- Keys ----

  /** The text key of the hash index separates nodes, because decimals contain no colon. */
  lemma HashKeyInjective(m: nat, g: string, n: nat, h: string)
    requires HashKey(m, g) == HashKey(n, h)
    ensures m == n && g == h
  {
    var a, b, key := Decimal(m), Decimal(n), HashKey(m, g);
    assert key[|a|] == ':' && key[|b|] == ':';
    assert forall i :: 0 <= i < |a| ==> key[i] == a[i] && a[i] in a;
    assert forall i :: 0 <= i < |b| ==> key[i] == b[i] && b[i] in b;
    assert a == key[..|a|] == b;
    DecimalInjective(m, n);
    assert g == key[|a| + 1..] == h;
  }

  // ---- Runs ----

  datatype Op =
    | AddNode(node: Node)
    | AddContract(contract: Contract)
    | Create(on: nat, data: Metadata, hash: string, ips: nat)
    | Cancel(id: nat)

  function Apply(l: Ledger, op: Op): Ledger {
    match op
    case AddNode(node) => l.AddNode(node)
    case AddContract(c) => l.AddContract(c)
    case Create(node, data, hash, ips) => l.Create(node, data, hash, ips).0
    case Cancel(id) => l.Cancel(id).0
  }

  function Run(ops: seq<Op>): Ledger {
    if ops == [] then EMPTY else Apply(Run(ops[..|ops| - 1]), ops[|ops| - 1])
  }

  /** The id the last creation for this node and hash was answered with. */
  function LatestCreated(ops: seq<Op>, node: nat, hash: string): Option<nat> {
    if ops == [] then None
    else
      var before, op := ops[..|ops| - 1], ops[|ops| - 1];
      if op.Create? && op.on == node && op.hash == hash && node in Run(before).nodes then Some(Run(before).next)
      else LatestCreated(before, node, hash)
  }

  /** An operation that keeps the index: a creation must not wrap the allocator, and a contract inserted by
      hand must not take an id in use. */
  predicate OpFits(l: Ledger, op: Op) {
    match op
    case Create(node, _, _, _) => node in l.nodes ==> l.next < U64_MAX
    case AddContract(c) => MayBeAdded(l, c)
    case _ => true
  }

  predicate Fits(ops: seq<Op>) {
    ops == [] || (Fits(ops[..|ops| - 1]) && OpFits(Run(ops[..|ops| - 1]), ops[|ops| - 1]))
  }

  lemma StepKeepsIndexIff(l: Ledger, op: Op)
    requires l.Indexed() && (op.AddContract? ==> op.contract.contractId <= U64_MAX)
    ensures Apply(l, op).Indexed() <==> OpFits(l, op)
  {
    match op
    case AddNode(node) => AddNodeKeepsIndex(l, node);
    case AddContract(c) => AddContractKeepsIndexIff(l, c);
    case Create(node, data, hash, ips) => if node in l.nodes { CreateKeepsIndexIff(l, node, data, hash, ips); }
    case Cancel(id) => CancelKeepsIndex(l, id);
  }

  /** A run of operations, insertions by hand included, keeps the index throughout exactly when every
      operation fits. */
  lemma {:induction false} AlwaysIndexedIff(ops: seq<Op>)
    requires forall op :: op in ops && op.AddContract? ==> op.contract.contractId <= U64_MAX
    ensures (forall i :: 0 <= i <= |ops| ==> Run(ops[..i]).Indexed()) <==> Fits(ops)
    decreases |ops|
  {
    hide Ledger.Indexed, OpFits, Apply;
    assert ops[..|ops|] == ops;
    if ops == [] {
      EmptyIsIndexed();
    } else {
      var before, op := ops[..|ops| - 1], ops[|ops| - 1];
      AlwaysIndexedIff(before);
      assert forall i :: 0 <= i <= |before| ==> before[..i] == ops[..i];
      assert op in ops;
      assert before[..|before|] == before;
      if Run(before).Indexed() { StepKeepsIndexIff(Run(before), op); }
      if Fits(before) && OpFits(Run(before), op) {
        forall i | 0 <= i <= |ops| ensures Run(ops[..i]).Indexed() {
          if i <= |before| { assert before[..i] == ops[..i]; }
        }
      }
      if forall i :: 0 <= i <= |ops| ==> Run(ops[..i]).Indexed() {
        forall i | 0 <= i <= |before| ensures Run(before[..i]).Indexed() { assert before[..i] == ops[..i]; }
      }
    }
  }

  lemma EmptyIsIndexed()
    ensures EMPTY.Indexed()
  {
  }

  /** Every ledger reached by fitting operations is indexed. */
  lemma {:induction false} ReachableIsIndexed(ops: seq<Op>)
    requires Fits(ops)
    ensures Run(ops).Indexed()
  {
    hide Ledger.Indexed, OpFits, Apply;
    if ops == [] {
      EmptyIsIndexed();
    } else {
      var before, op := ops[..|ops| - 1], ops[|ops| - 1];
      ReachableIsIndexed(before);
      FittingIdIsBelow(Run(before), op);
      StepKeepsIndexIff(Run(before), op);
    }
  }

  lemma FittingIdIsBelow(l: Ledger, op: Op)
    requires OpFits(l, op)
    ensures op.AddContract? ==> op.contract.contractId <= U64_MAX
  {
  }

  /** Without insertions by hand, fewer operations than there are ids always fit. */
  lemma {:induction false} PlainRunsFit(ops: seq<Op>)
    requires |ops| < 18446744073709551615 && forall op :: op in ops ==> !op.AddContract?
    ensures Fits(ops) && 1 <= Run(ops).next <= 1 + |ops|
  {
    hide OpFits, Apply;
    if ops != [] {
      var before, op := ops[..|ops| - 1], ops[|ops| - 1];
      assert op in ops;
      PlainRunsFit(before);
      PlainStepFits(Run(before), op);
    }
  }

  lemma PlainStepFits(l: Ledger, op: Op)
    requires 1 <= l.next < U64_MAX && !op.AddContract?
    ensures OpFits(l, op) && l.next <= Apply(l, op).next <= l.next + 1
  {
  }

  /** The hash index answers with the latest contract created for that node and hash, live or not. */
  lemma {:induction false} HashIndexIsLatest(ops: seq<Op>, node: nat, hash: string)
    ensures Run(ops).Lookup(node, hash) == LatestCreated(ops, node, hash)
  {
    if ops != [] {
      var before, op := ops[..|ops| - 1], ops[|ops| - 1];
      HashIndexIsLatest(before, node, hash);
      if op.Create? && HashKey(op.on, op.hash) == HashKey(node, hash) {
        HashKeyInjective(op.on, op.hash, node, hash);
      }
    }
  }

  /** A node's contract is never forgotten nor replaced, and a deleted one is never created again. */
  lemma {:induction false} DeletedForever(ops: seq<Op>, more: seq<Op>, c: nat)
    requires Fits(ops + more) && c in Run(ops).contracts && Run(ops).contracts[c].contractType.NodeId().Some?
    ensures Fits(ops) && c in Run(ops + more).contracts
    ensures Run(ops + more).contracts[c].contractType == Run(ops).contracts[c].contractType
    ensures Run(ops).contracts[c].isDeleted ==> Run(ops + more).contracts[c].isDeleted
    decreases |more|
  {
    hide Ledger.Indexed, Apply, OpFits;
    if more == [] {
      assert ops + more == ops;
    } else {
      var fewer, op := more[..|more| - 1], more[|more| - 1];
      assert (ops + more)[..|ops + more| - 1] == ops + fewer;
      DeletedForever(ops, fewer, c);
      ReachableIsIndexed(ops + fewer);
      StepKeepsContract(Run(ops + fewer), op, c);
    }
  }

  lemma StepKeepsContract(l: Ledger, op: Op, c: nat)
    requires l.Indexed() && OpFits(l, op) && c in l.contracts && l.contracts[c].contractType.NodeId().Some?
    ensures c in Apply(l, op).contracts && Apply(l, op).contracts[c].contractType == l.contracts[c].contractType
    ensures l.contracts[c].isDeleted ==> Apply(l, op).contracts[c].isDeleted
  {
  }

  // ---- The imperative substrate ----

  class MockSubstrate {
    var contracts: map<nat, Contract>
    var nodes: map<nat, Node>
    var nodeContracts: map<nat, seq<nat>>
    var contractHashes: map<string, nat>
    var nextContractId: nat

    ghost function State(): Ledger
      reads this
    {
      Ledger(contracts, nodes, nodeContracts, contractHashes, nextContractId)
    }

    constructor ()
      ensures State() == EMPTY
    {
      contracts, nodes, nodeContracts, contractHashes, nextContractId := map[], map[], map[], map[], 1;
    }

    method AddNode(node: Node)
      modifies this
      ensures State() == old(State()).AddNode(node)
    {
      nodes := nodes[node.id := node];
    }

    method Index(node: nat, id: nat)
      modifies this`nodeContracts
      ensures nodeContracts == old(nodeContracts)[node := old(State()).Listed(node) + [id]]
    {
      if node !in nodeContracts { nodeContracts := nodeContracts[node := []]; }
      nodeContracts := nodeContracts[node := nodeContracts[node] + [id]];
    }

    method AddContract(c: Contract)
      modifies this
      ensures State() == old(State()).AddContract(c)
    {
      var node := c.contractType.NodeId();
      if node.Some? { Index(node.value, c.contractId); }
      contracts := contracts[c.contractId := c];
      if c.contractId >= nextContractId {
        nextContractId := if c.contractId < U64_MAX then c.contractId + 1 else U64_MAX;
      }
    }

    method GetNode(node: nat) returns (r: Result<Node>)
      ensures r.Ok? <==> node in State().nodes
      ensures r.Ok? ==> r.value == State().nodes[node]
    {
      if node in nodes { return Ok(nodes[node]); }
      return Err(NotFound("node " + Decimal(node)));
    }

    /** A node's twin is the node id itself. */
    method GetNodeTwin(node: nat) returns (r: Result<nat>)
      ensures r.Ok? <==> node in State().nodes
      ensures r.Ok? ==> r.value == node
    {
      if node in nodes { return Ok(node); }
      return Err(NotFound("node twin " + Decimal(node)));
    }

    method GetContract(id: nat) returns (r: Result<Contract>)
      ensures r.Ok? <==> id in State().contracts
      ensures r.Ok? ==> r.value == State().contracts[id]
    {
      if id in contracts { return Ok(contracts[id]); }
      return Err(NotFound("contract " + Decimal(id)));
    }

    method GetNodeContracts(node: nat) returns (r: seq<nat>)
      ensures r == State().Listed(node)
    {
      r := if node in nodeContracts then nodeContracts[node] else [];
    }

    method GetContractWithHash(node: nat, hash: string) returns (r: Result<nat>)
      ensures r.Ok? <==> State().Lookup(node, hash).Some?
      ensures r.Ok? ==> State().Lookup(node, hash) == Some(r.value)
    {
      var key := HashKey(node, hash);
      if key in contractHashes { return Ok(contractHashes[key]); }
      return Err(NotFound("contract hash " + hash));
    }

    method CancelContract(id: nat) returns (r: Result<()>)
      modifies this
      ensures (State(), r) == old(State()).Cancel(id)
    {
      if id !in contracts { return Err(NotFound("contract " + Decimal(id))); }
      var contract := contracts[id];
      contract := contract.(isCreated := false);
      contract := contract.(isDeleted := true);
      contracts := contracts[id := contract];
      return Ok(());
    }

    method CreateNodeContract(node: nat, data: Metadata, hash: string, ips: nat) returns (r: Result<nat>)
      modifies this
      ensures (State(), r) == old(State()).Create(node, data, hash, ips)
    {
      if node !in nodes { return Err(NotFound("node " + Decimal(node))); }
      var id := nextContractId;
      nextContractId := (id + 1) % (U64_MAX + 1);
      contracts := contracts[id := NewContract(id, node, data, ips)];
      Index(node, id);
      contractHashes := contractHashes[HashKey(node, hash) := id];
      return Ok(id);
    }
  }
}
