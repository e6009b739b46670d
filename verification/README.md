# Verified model of the grid deployment SDK

This project models, in Dafny, the deployment engine of the Rust grid SDK and the parts it rests on, and proves what they
guarantee.

- A deployment request becomes a run of on-chain creations, contract lookups, messages to a node, polls and rollbacks over
  up to five candidate nodes (`grid_client.dfy`). The environment (`world.dfy`) may answer every call with anything; only
  its clock is monotone and its chain never reuses an id. Each method is specified by the set of event traces it may add
  (`deploy_trace.dfy`). `accounting.dfy` says which contracts a run leaves behind, `deploy_order.dfy` in which order things
  happen, `own_contracts.dfy` and `clashes.dfy` whose contracts a rollback touches, `settling.dfy` what the wait for workloads
  accepts, `retries.dfy` which answers a wait goes on after, and `requested.dfy` what nodes are sent and callers are told.
- `rmb.dfy` is the relay socket and the matching of replies to calls by uid.
- `deployments.dfy`, `builders.dfy` and `key_order.dfy` are the canonical challenge a deployment is hashed and signed over;
  `coverage.dfy` says what its parts are and `differences.dfy` that none of them can change unseen.
- `ledger.dfy` and `deployer.dfy` are the in-memory chain and node stores with the deployer on top of them.
- `workloads.dfy`, `round_trip.dfy`, `readings.dfy`, `matching.dfy` and `hex_codec.dfy` translate typed deployments to
  workloads and back.
- `networks.dfy` and `state.dfy` rebuild networks from per-node fragments, `fragments.dfy` says what they show of the stored
  workloads, and `network_order.dfy` what their order changes; `calculator.dfy` is billing over exact reals, and `bills.dfy`
  its amounts in closed form; `placement.dfy`, `ports.dfy` and `addresses.dfy` choose nodes,
  ports and addresses; `config.dfy` is the configuration builder.

Loops over mutable state are methods of classes, each proved against a function or a trace predicate; the theorems are
lemmas about those specifications. `dafny verify dfyconfig.toml` checks everything.

Where the code does less than its callers may expect, a lemma shows the failure and another says exactly when it occurs:

- A machine that is up settles only when its request wants no public address and names every volume like the machine,
  because the rule asks for one distinct ok name (`UpMachineSettlesIff`, `UpLightMachineSettlesIff`); a network in error
  settles, and its machine is submitted all the same (`NetworkInErrorGetsItsMachine`).
- A call without a result may succeed with no answer at all (`UnitSucceedsIff`).
- A created contract that no lookup returned survives the run (`ChainIsExactIffCreationsObserved`). With truthful lookups
  rollback touches only contracts of its own attempt as long as no creation clashes with another contract of the same node
  and hash (`RollbackTouchesOnlyItsOwn`); such a clash can make it cancel that other one (`ClashCancelsAnotherContract`,
  `ClashOnNetworkCancelsAnother`, `ClashAfterNetworkCancelsAnother`).
- After the id allocator wraps, a deployment fails but its contract stays (`DeployFailsIff`); a contract inserted by hand
  on an unknown node is deleted by a cancel that reports an error (`CancelFailsIff`); a run keeps the index exactly when
  no operation takes an id in use or the last one, or inserts a contract both created and deleted (`AlwaysIndexedIff`).
- An overdue amount is reached unless the contract sits in a trap of contracts without an amount of their own and rent
  contracts that lead back into it (`AnswersUnlessTrapped`); on the in-memory chain that means no rent contract ever gets
  one (`IndexedChainAnswersIff`).
- Whether a network loads can depend on hash-map order: `OrderNeverMattersIff` is the exact condition on the fragments, and
  the first fragment alone does not decide (`LaterOrderDecidesToo`). What it loads depends on the order unless the headers
  agree (`WholeNetworkIsConfluentIff`).
- Re-ordering puts unknown workloads last only while keys stay below 10000 (`UnknownGoesLastIff`), and leaves a deployment
  handed back unchanged alone exactly when the last places of its names come in order, which a shared name can prevent
  (`SelfMatchStaysIff`, `SharedNameReordersIff`).
- Two hashed fields that change at once may cancel, although no single one can (`TwoFieldsMayCancel`, `EveryFieldCounts`).
- Normalising a URL twice can differ from once (`NormalizeIsIdempotentIff`).

## Model

| member | source | states |
|---|---|---|
| Accounting.SurvivorsAreAccountedFor | src/grid_client/mod.rs:719-747 | for every environment, a contract live after a run and not before is an id of the outcome, an id whose rollback cancel was not seen to succeed, or an id no `wait_for_contract` returned |
| Accounting.OwnSurvivorsAreAccountedFor | src/grid_client/mod.rs:719-747 | the same for the run's own contracts amid any creations and cancellations of other clients between its events |
| Accounting.ChainIsExactIffCreationsObserved | src/grid_client/mod.rs:1019-1057 | when all cancels succeed, the live contracts are the old ones plus the outcome's if and only if every creation was returned by some wait, with no trust in lookups |
| Accounting.ObservedRunIsExact | src/grid_client/mod.rs:1095-1152 | the "if" half: by counting, the ids found are exactly the ids created, so rollback hits nothing else |
| Accounting.UnseenCreationStays | src/grid_client/mod.rs:1537-1574 | the "only if" half: a creation no wait returned is live at the end and named nowhere |
| Accounting.OutcomeSurvives | src/grid_client/mod.rs:719-747 | when the ids found are distinct and are those created, the ids of a successful outcome are new, live, and were cancelled by no earlier attempt's rollback |
| Accounting.CancelUndoesDeploy | src/grid_client/mod.rs:990-1017 | a successful `cancel_deployment_outcome` after such a run leaves the live contracts as at the start |
| Accounting.AttemptEvent | src/grid_client/mod.rs:1019-1057 | within one attempt only the rollback of a failure drops or cancels, and only non-zero ids that this attempt's waits returned |
| Accounting.StageEvent | src/grid_client/mod.rs:1095-1152 | taking one contract through submission, lookup, sending and settling creates that one contract and cancels none |
| Accounting.RunCounts | src/grid_client/mod.rs:719-747 | a run finds at most as many ids as it creates |
| DeployOrder.RollbackReversesCreation | src/grid_client/mod.rs:1038-1057 | rollback tears down each non-zero id once, newest first, node delete before chain cancel |
| OwnContracts.RollbackTouchesOnlyItsOwn | src/grid_client/mod.rs:1019-1057 | in any run with truthful lookups and no clash after a creation, whatever an attempt drops or cancels was created in that attempt and was not on the chain before the run |
| OwnContracts.ExistingNetworkIsNeverCancelled | src/grid_client/mod.rs:1130-1152 | so a run into an existing network tears down nothing but the machines its attempts created, and no contract that was there before |
| DeployOrder.ExistingNetworkTearsDownOne | src/grid_client/mod.rs:1130-1152 | with no assumption on lookups, an attempt into an existing network tears down at most the one id its machine's wait returned |
| DeployOrder.CandidatesAreTriedInTurn | src/grid_client/mod.rs:719-747 | at most five attempts, on the candidates in proxy order, each before the last failed and with all it found submitted for cancellation |
| DeployOrder.MachineFollowsSettledNetwork | src/grid_client/mod.rs:1101-1152 | the machine's contract is submitted only after the created network was confirmed and its wait for workloads returned |
| DeployOrder.SentIsAnchored | src/grid_client/mod.rs:1097-1118 | every deployment a node is sent hashes to what was anchored before, is signed over that hash, and carries the id looked up by it |
| DeployOrder.TruthfulLookupFindsTheNewContract | src/grid_client/mod.rs:1537-1574 | with one live contract per node and hash, a truthful lookup returns the contract just created |
| Clashes.ClashCancelsAnotherContract | src/grid_client/mod.rs:1537-1574 | for a request into an existing network, any live contract with the machine's node and hash admits a run with truthful lookups that cancels it and leaves the own machine behind |
| Clashes.ClashOnNetworkCancelsAnother | src/grid_client/mod.rs:1228-1384 | the same for a request that creates a network, when the clash is with that network's own deployment |
| Clashes.ClashAfterNetworkCancelsAnother | src/grid_client/mod.rs:1228-1384 | and when it is with the machine of a network just created: rollback cancels the other contract and the new network, and leaves the own machine behind |
| GridClients.GridClient.WaitForContract | src/grid_client/mod.rs:1537-1574 | the first lookup that lists anything decides; at most 46 lookups, and a time-out comes no earlier than after 45 s |
| GridClients.GridClient.DeployAndConfirm | src/grid_client/mod.rs:1703-1781 | success means the node answered a read for that id or said "exists"; at most 10 sends and 16 reads for each, and without another error no failure before 320 s |
| GridClients.GridClient.PollUntilVisible | src/grid_client/mod.rs:1738-1775 | one round of reads: visible, ended by an error that does not say the node is still working, or still missing after at least 30 s, in at most 16 reads |
| GridClients.GridClient.IsSettled | src/grid_client/mod.rs:1671-1686 | the scan computes the settle rule: some terminal state, or exactly one distinct ok name |
| GridClients.GridClient.WorkloadsFromGet | src/grid_client/mod.rs:1783-1848 | a read yields workloads exactly when they parse and are settled; an error that says the node is still working yields none, and any other is the result |
| GridClients.GridClient.WorkloadsFromChanges | src/grid_client/mod.rs:1625-1686 | one poll ends the wait exactly when its workloads settle, breaks it exactly on an unreadable answer or an error that does not say the node is still working, and otherwise asks for a read when it showed nothing |
| GridClients.GridClient.WaitForWorkloads | src/grid_client/mod.rs:1615-1701 | the first settled answer is the result; unless an answer is unreadable or fails for another reason than that the node is still working, no failure comes before 180 s; at most 91 polls and 91 reads |
| GridClients.GridClient.AnchorAndFind | src/grid_client/mod.rs:1097-1115 | the signed deployment is anchored under its hash, and the id returned by the wait is remembered at once |
| GridClients.GridClient.AnchorAndSettle | src/grid_client/mod.rs:1097-1128 | each leg is taken only after the one before was good, and only the first touches the chain |
| GridClients.GridClient.PlanNetwork | src/grid_client/mod.rs:1228-1384 | planning fails exactly on a subnet without host five or a needed port not found; the network's deployment is what the builder makes of the request, with names and ranges it leaves open derived from the time and the machine's address in its subnet |
| GridClients.GridClient.DeployNetwork | src/grid_client/mod.rs:1074-1131 | an existing network costs nothing; a created one goes through the whole passage as planned, success being exactly its completion and no submission being exactly a failed plan |
| GridClients.GridClient.DeployMachine | src/grid_client/mod.rs:1133-1210 | the machine built on that network goes through the passage and is read back |
| GridClients.GridClient.BuildMachine | src/grid_client/mod.rs:1133-1137 | the machine's deployment is what the builder makes of the request on that network, under the name asked for or one derived from the time |
| GridClients.GridClient.ReadBack | src/grid_client/mod.rs:1166-1209 | success exactly when the node shows the machine and nothing settled in error; the outcome takes its addresses from that answer |
| GridClients.GridClient.DeployOnNodeInner | src/grid_client/mod.rs:1228-1384 | one attempt without rollback: its events, and `created` grown by exactly the ids found |
| GridClients.GridClient.DeployOnNode | src/grid_client/mod.rs:1212-1226 | a failed attempt is rolled back over exactly the ids it found, a successful one not at all |
| GridClients.GridClient.RollbackContracts | src/grid_client/mod.rs:1038-1057 | the loop yields the rollback specification and a legal chain run |
| GridClients.GridClient.DeployWithFailover | src/grid_client/mod.rs:719-747 | attempts in candidate order until one succeeds; the last error otherwise |
| GridClients.GridClient.DeployAuto | src/grid_client/mod.rs:667-714 | failover over exactly what placement picks from the proxy's list for the request's room and addresses; nothing is submitted, and the error is that of the list or of placement, exactly when there is no list or no suitable node |
| GridClients.GridClient.CancelDeploymentOutcome | src/grid_client/mod.rs:990-1017 | machine before network, node delete before chain cancel, zero ids skipped, nothing after a failed cancel |
| GridClients.GridClient.GetFreeWgPort | src/grid_client/mod.rs:1510-1526 | the least port the node does not list, unless the node does not answer or lists all |
| Requested.NodesAreSentWhatWasRequested | src/grid_client/mod.rs:1097-1152 | whatever a node is sent in an attempt asks for what the request asks for: the network with its addresses, keys and port while that is created, then the machine with its cores, memory, size, files, environment, volumes and addresses, on that network |
| Requested.NetworkIsAsRequested | src/grid_client/deployment.rs:306-366 | both network builders, field by field, with names and ranges left open derived from the time |
| Requested.MachineIsAsRequested | src/grid_client/deployment.rs:367-498 | both machine builders, under one optional signature request of the own twin |
| Requested.OutcomeTellsWhatWasDone | src/grid_client/mod.rs:1330-1384 | a successful attempt reports its node, network, ids and address, and what the machine's first workload shows in the final read |
| Requested.AddressesAreShown | src/grid_client/mod.rs:2185-2216 | the public addresses are those the machine's address workload shows once it is up, the second from `ipv6` or, when that is no answer, from `ip6` |
| Requested.ReadsAsListed | src/grid_client/mod.rs:2102-2117 | a reply reads as the workloads it lists, in order, unless one is malformed |
| Retries.RetryableIff | src/grid_client/mod.rs:1753-1775 | the errors a poll goes on after are exactly those with one of four texts in them, whatever surrounds it |
| Retries.ConfirmingGivesUpAfterTenSends | src/grid_client/mod.rs:1703-1781 | a node that only says it is still working is given up on after ten sends; any other error ends the wait at once, as its result |
| Retries.ConfirmedByFirstSight | src/grid_client/mod.rs:1703-1781 | the wait succeeds with the first event that shows the node has the deployment, and with no other |
| Retries.SettlingGivesUpOnTime | src/grid_client/mod.rs:1615-1701 | the same for the wait for workloads, which an unreadable answer ends too and which otherwise times out |
| Settlements.AllOkSettlesIff | src/grid_client/mod.rs:1671-1686 | an all-ok deployment settles if and only if its workloads share one name |
| Settlements.SettlesIff | src/grid_client/mod.rs:1671-1686 | any deployment settles if and only if some workload is in error, deleted, paused or unchanged, or some are ok and all of these share a name |
| Settlements.SettlesAloneIff | src/grid_client/mod.rs:1671-1686 | the states that settle a single workload |
| Settlements.SeveralOkWorkloadsNeverSettle | src/grid_client/mod.rs:1623-1699 | a node that only ever shows several ok workloads makes the wait fail |
| Settlements.UpMachineSettlesIff | src/grid_client/mod.rs:1671-1686 | a full machine the node reports up settles if and only if its request wants no public address and names every volume like the machine |
| Settlements.UpLightMachineSettlesIff | src/grid_client/mod.rs:1671-1686 | the same for a light machine and its volumes |
| Settlements.UpMachineWaitsInVain | src/grid_client/mod.rs:1615-1701 | otherwise its wait fails although the node only ever shows it up |
| Settlements.UpLightMachineWaitsInVain | src/grid_client/mod.rs:1615-1701 | the same for a light machine with a volume of another name |
| Settlements.SettledNetworkGetsItsMachine | src/grid_client/mod.rs:1101-1152 | whatever the network settled to, the attempt goes on to submit the machine's contract |
| Settlements.NetworkInErrorGetsItsMachine | src/grid_client/mod.rs:1101-1152 | so for every request with a planned and hashable network there is an attempt in which the network settles in error and the machine is submitted |
| Rmb.RelayClient.RmbCall | src/grid_client/mod.rs:1905-2044 | the call ends as the first decisive arrival says, with the socket kept or dropped accordingly |
| Rmb.RelayClient.Receive | src/grid_client/mod.rs:1951-2044 | the receive loop passes over foreign frames and stops at the first decisive arrival or the deadline |
| Rmb.RelayClient.EnsureRelaySocket | src/grid_client/mod.rs:2046-2062 | connects exactly when no socket is held |
| Rmb.OutcomeIsDetermined | src/grid_client/mod.rs:1951-2044 | the arrivals determine result and socket uniquely |
| Rmb.ValueCarriesOwnUid | src/grid_client/mod.rs:1966-2030 | a value comes only from an in-time envelope with the call's own uid, and the socket stays open |
| Rmb.ValueIsThePayload | src/grid_client/mod.rs:2005-2030 | the value is what the envelope's payload reads as, a sealed one being opened with the key of its sender, or of the called twin when it names none |
| Rmb.LateRepliesAreNeverDelivered | src/grid_client/mod.rs:1905-2044 | over any session with fresh uids, no call is given another call's reply |
| Rmb.ReconnectsIffLost | src/grid_client/mod.rs:1935-2062 | the next call reconnects exactly after a send failure, receive failure, receive time-out or stream end |
| Rmb.UnitSucceedsIff | src/grid_client/mod.rs:1951-2044 | a call without result succeeds exactly when it goes out and, after the frames passed over, the deadline is reached or the next arrival in time is the end of the stream or an error-free reply of its own |
| Rmb.UnitSucceedsUnanswered | src/grid_client/mod.rs:1951-2044 | a stream that just ends makes such a call succeed |
| Rmb.LostRepliesAreRetried | src/grid_client/mod.rs:1951-2044 | losing the relay or the reply is an error the deployment polls retry |
| Deployments.HashIgnoresLaterFields | src/grid_client/deployment.rs:543-572 | signatures, the contract id and workload results never change the hash |
| Deployments.EnumerationOrderIsIrrelevant | src/grid_client/deployment.rs:619-625 | whatever order the environment map hands out its keys in, sorting them gives the machine's one challenge |
| Deployments.DeploymentHashBytes | src/grid_client/deployment.rs:543-572 | the buffer loop computes the digest of the challenge, or the first workload's failure |
| Deployments.WorkloadChallengeText | src/grid_client/deployment.rs:574-740 | the appending code computes the workload's challenge, kind by kind |
| Deployments.MachineChallengeText | src/grid_client/deployment.rs:574-740 | the same for machines, with keys collected in arbitrary order and then sorted |
| Deployments.CollectKeys | src/grid_client/deployment.rs:619-625 | collecting in any order and sorting gives the one increasing listing of the keys |
| Deployments.SignDeployment | src/grid_client/deployment.rs:524-537 | one signature over the hash is pushed, and the hash stays the same |
| Coverage.ChallengeIsItsParts | src/grid_client/deployment.rs:543-740 | the challenge is the concatenation of a list of parts in a fixed order, environment pairs included, and exists exactly when every workload has its data |
| Differences.EveryFieldCounts | src/grid_client/deployment.rs:543-740 | deployments that differ in one hashed field - a version, a name, one environment value, the entry point, cores, a mount, a size, a port, a request - have different challenges |
| Differences.TwoFieldsMayCancel | src/grid_client/deployment.rs:543-572 | two fields at once may give the same challenge |
| Differences.CorexIsNotHashed | src/grid_client/deployment.rs:592-630 | a machine's `corex` flag is not hashed |
| KeyOrder.SortIsCanonical | src/grid_client/deployment.rs:619-625 | sorting distinct keys has exactly one result, whatever their order |
| KeyOrder.FirstDifferenceDecides | src/grid_client/deployment.rs:619-625 | the order is that of the first differing character, a text coming before its continuations |
| Builders.BuildVm | src/grid_client/deployment.rs:430-498 | field by field: the address workload when one is wanted, with its versions; each volume with its size, in order; and the machine with the cores, memory, size and settings asked for, naming its address and mounting its volumes; the count charged on chain is the number of address workloads |
| Builders.BuildVmLight | src/grid_client/deployment.rs:367-428 | the same for a light machine, which mounts its volumes and then what else it is to mount; nothing is charged |
| Builders.HashFailsOnlyOnBadWorkloads | src/grid_client/deployment.rs:574-740 | the challenge exists exactly when every workload is of a supported kind with its data |
| Builders.DeploymentHashesIff | src/grid_client/deployment.rs:539-541 | the same for the hash of a whole deployment |
| Ledgers.ReachableIsIndexed | src/subi.rs:498-549 | after any operations that fit, every ledger has ids below the allocator, consistent states, and node lists exact and without repeats |
| Ledgers.AlwaysIndexedIff | src/subi.rs:280-299 | a run of any operations, insertions by hand included, is indexed throughout if and only if no creation wraps the allocator and no insertion takes a node contract's id, the last id or an inconsistent state |
| Ledgers.PlainRunsFit | src/subi.rs:498-549 | runs without insertions by hand fit while they are shorter than the id range |
| Ledgers.CreateKeepsIndexIff | src/subi.rs:498-549 | a creation gets a fresh non-zero id, and keeps the index if and only if the allocator does not wrap |
| Ledgers.AddContractKeepsIndexIff | src/subi.rs:280-299 | a hand-inserted contract keeps the index if and only if its id is no node's contract, is below the largest id, and its state is consistent |
| Ledgers.HashIndexIsLatest | src/subi.rs:464-477 | the hash index answers with the latest contract created for that node and hash |
| Ledgers.HashKeyInjective | src/subi.rs:544-547 | the text key separates nodes and hashes |
| Ledgers.DeletedForever | src/subi.rs:488-496 | in fitting runs a node's contract is never forgotten, never changes type, and stays deleted once deleted |
| Ledgers.MockSubstrate.CreateNodeContract | src/subi.rs:498-549 | the whole new state and the id, or nothing on an unknown node |
| Ledgers.MockSubstrate.AddContract | src/subi.rs:280-299 | the whole new state, allocator saturating included |
| Ledgers.MockSubstrate.CancelContract | src/subi.rs:488-496 | the contract is marked deleted, or nothing happens on an unknown id |
| Ledgers.MockSubstrate.GetContractWithHash | src/subi.rs:464-477 | answers from the hash index |
| Ledgers.MockSubstrate.GetNodeContracts | src/subi.rs:436-444 | a node's list, empty when it was never indexed |
| Deployers.ReachableAgrees | src/deployer.rs:25-61 | after any operations below id overflow a node stores an id exactly when that contract is live and its own, with matching id, metadata and address count |
| Deployers.HistoryDecidesStore | src/node.rs:92-107 | loading answers exactly the deployment that was answered with that id and not cancelled since |
| Deployers.DeployIsRecorded | src/deployer.rs:25-49 | a deployment that succeeds is a live contract of its node, charged for each machine that wants an address, found by its name, node and solution type, and stored under the contract's id and metadata |
| Deployers.RunProjects | src/deployer.rs:25-61 | deployer runs are chain runs, so every ledger theorem holds of them |
| Deployers.CancelUndoesDeploy | src/deployer.rs:51-61 | cancelling a fresh deployment restores every store and touches no other contract |
| Deployers.DeployFailsIff | src/deployer.rs:25-49 | a deployment fails exactly on unknown nodes, without a trace, or at id 0, leaving a contract behind |
| Deployers.CancelFailsIff | src/deployer.rs:51-61 | a cancel fails exactly on unknown ids, without a trace, or on unknown nodes, the contract being deleted all the same |
| Deployers.Deployer.Deploy | src/deployer.rs:25-49 | the sequence of ledger and store updates is the specified step, also on every error path |
| Deployers.Deployer.Cancel | src/deployer.rs:51-61 | the same for cancelling |
| Deployers.Deployer.LoadNodeDeployment | src/deployer.rs:63-72 | the stored deployment, with no store changed |
| Deployers.MockNodeClient.DeploymentPut | src/node.rs:92-98 | id 0 is refused; otherwise exactly that slot is written |
| Deployers.MockNodeClientGetter.EnsureNodeClient | src/node.rs:142-149 | one shared store per node, created empty on first use and never shared between nodes |
| Deployers.MockNodeClientGetter.GetNodeClient | src/node.rs:152-163 | a handle on that store, or an error and no new store for unknown nodes |
| RoundTrips.ReadingInvertsFlattening | src/workloads.rs:1636-1702 | reading a flattened deployment gives it back, up to exactly the fields its workloads do not carry; storage groups travel as their JSON text |
| RoundTrips.ReadableIffChecksums | src/workloads.rs:1528-1600 | reading succeeds if and only if every machine's flist has a checksum |
| RoundTrips.ChargedAddressesAreSent | src/deployer.rs:76-82 | the addresses charged equal the `ip` workloads of the flattening |
| Readings.VmIsWritten | src/workloads.rs:604-680 | a machine's workloads hold it field by field, after the address workload it wants |
| Readings.VmIsRead | src/workloads.rs:1528-1566 | reading gives the machine its workload holds; it has a public address of a kind exactly when its address workload is up and gives one |
| Readings.VmResultIsRead | src/workloads.rs:1528-1566 | and the texts its own result gives, the planetary one before the older |
| Readings.VmLightIsRead | src/workloads.rs:1568-1600 | the same for a light machine |
| Readings.AddressesAreGiven | src/workloads.rs:1704-1760 | the addresses resolved are those the first address workload gives once up, from a text or from the first of four members of an object |
| Readings.GatewaysAreWritten | src/workloads.rs:970-1060 | gateways are written with their name or domain, backends, network and TLS setting |
| Workloads.FromZos | src/workloads.rs:1636-1702 | the loop succeeds exactly on readable workloads and collects each list in order |
| Matching.ShufflesAreRestored | src/workloads.rs:472-532 | with distinct names any shuffle of the old lists is put back exactly, at any size |
| Matching.MatchingKeepsOldOrder | src/workloads.rs:472-532 | while keys stay below 10000 known items come first in the old order and unknown ones follow in the given order |
| Matching.MatchingPermutes | src/workloads.rs:509-531 | every list stays a permutation of what was given, whatever the names |
| Matching.UnknownGoesLastIff | src/workloads.rs:503-522 | an unknown machine moves behind the i-th old one if and only if i is below 9000 |
| Matching.UnchangedStaysIff | src/workloads.rs:509-531 | a list handed back unchanged stays as it is if and only if the numbers its names ended up with rise along it |
| Matching.SelfMatchStaysIff | src/workloads.rs:472-532 | a deployment matched against itself is left alone if and only if in every list the last places of its names in the whole deployment come in the list's own order, at any size and whatever names are shared |
| Matching.SharedNameReordersIff | src/workloads.rs:481-508 | two disks and a machine, matched against themselves, are reordered if and only if the machine has the first disk's name |
| Matching.SortIsStable | src/workloads.rs:509-531 | items with equal keys keep their order |
| Matching.NumberedThrough | src/workloads.rs:481-508 | storage lists are numbered on from each other, machines from 1000 and 2000 |
| Matching.DeploymentLists.MatchDeployments | src/workloads.rs:472-532 | the numbering loops and in-place sorts compute the specified lists |
| Matching.DeploymentLists.Nullify | src/workloads.rs:534-541 | every list is emptied |
| HexCodec.DecodeInvertsEncode | src/workloads.rs:50-67 | decoding the encoding of any bytes returns them |
| HexCodec.EncodeNormalizesDecode | src/grid_client/mod.rs:3037-3054 | decoding succeeds exactly on trimmed even-length hex, and re-encoding gives its trimmed lower-case form (section 8 of RFC 4648) |
| HexCodec.HighThenLow | src/workloads.rs:50-67 | each byte is its high digit and then its low one, counted 0 to 9 and a to f |
| Networks.RebuildingIsConfluent | src/state.rs:199-245 | with at most one matching workload per node, any two visiting orders of nodes and deployments fail together or agree on nodes, subnets, keys, ports and contract ids |
| NetworkOrder.AgreeingHeadersAreConfluent | src/state.rs:225-275 | with agreeing headers - light networks and missing ranges included - the whole network, or the failure, is the same up to the order of the node list |
| NetworkOrder.WholeNetworkIsConfluentIff | src/state.rs:225-275 | the whole network is the same in every order, failures included, if and only if the headers agree up to ranges left empty or no order loads |
| NetworkOrder.FailsIffFirstLacksPort | src/state.rs:247-271 | one order fails exactly when the fragment visited first wants access without any port for its public node and the endpoint visited last is not empty |
| NetworkOrder.SomeOrderFailsIff | src/state.rs:247-271 | which fragments can fail in some order |
| NetworkOrder.SomeOrderLoadsIff | src/state.rs:247-271 | and which can load in some order |
| NetworkOrder.OrderNeverMattersIff | src/state.rs:247-271 | every order fails or loads alike if and only if the fragments cannot do both |
| NetworkOrder.LaterOrderDecidesToo | src/state.rs:247-271 | three fragments with the same one first that load or fail by the order of the others |
| NetworkOrder.OrderDecidesOutcome | src/state.rs:247-271 | two fragments that load in one order and fail in the other |
| Networks.LoadedNodesAreExact | src/state.rs:234-245 | a loaded network lists each node once, exactly those it has a subnet and a contract for |
| Fragments.LoadedNodesStoreIt | src/state.rs:199-245 | a loaded network lists exactly the visited nodes that store a workload of it |
| Fragments.LoadedNetworkIsStored | src/state.rs:199-245 | and says of each what it stores: the subnet, the keys and the port where it has them, and the contract of the deployment |
| Fragments.HeaderIsFirstStored | src/state.rs:225-245 | name, project, public node and access are those of the first visited node that stores it |
| Fragments.RangeIsFirstGiven | src/state.rs:225-245 | the range is the first given one in the order visited |
| Fragments.AccessTextNamesThePublicNode | src/state.rs:247-271 | the text for users names the access address and key, the public node's key, its reported endpoint with its port, and the range |
| Fragments.FragmentSaysWhatIsStored | src/workloads.rs:1091-1226 | a fragment is what the stored workload says, and exists exactly when the deployment has one |
| Networks.FragmentsAreOwn | src/workloads.rs:1091-1226 | a fragment speaks of its own node only |
| GridStates.State.LoadNetwork | src/state.rs:175-341 | the nested loops and the fold compute the specification; each node's subnet is the one its workload stores; the remembered subnets change only on success, to exactly the network's |
| GridStates.State.ScanDeployment | src/state.rs:202-222 | the first matching workload of a deployment is read, and no other, and the fragment says what it stores |
| GridStates.State.StoreContractIds | src/state.rs:35-42 | one node's list grows by the new ids, in order |
| GridStates.State.RemoveContractIds | src/state.rs:44-50 | one node's list loses the ids; unknown nodes change nothing |
| GridStates.IdsBehaveAsSets | src/state.rs:35-50 | after any changes a node's ids are without repeats and equal the same changes made on a set |
| GridStates.StoreAppends | src/state.rs:35-42 | new ids are appended in the order given |
| GridStates.RemoveKeepsOthers | src/state.rs:44-50 | removing keeps the others in their order |
| GridStates.State.AssignNodesIpRange | src/state.rs:441-472 | a subnet for every member's node, or an error exactly when one has none |
| Calculators.GetApplicableDiscounts | src/calculator.rs:274-299 | the last-match loop picks the greatest tier the balance covers |
| Calculators.DiscountIsMonotone | src/calculator.rs:274-299 | a covered tier covers all smaller ones; the discount never rises with price nor falls with balance |
| Calculators.DiscountByMonths | src/calculator.rs:274-299 | the discount by how many months of the price the balance covers: 60 percent beyond 18, 40 beyond 6, 30 beyond 3, 20 beyond 1.5 |
| Calculators.SharedPriceStrictlyIncreases | src/calculator.rs:55-74 | the final shared price is strictly increasing in the cost and never exceeds it |
| Calculators.DedicatedNeverExceedsShared | src/calculator.rs:55-74 | with a policy discount of at most 100 the final dedicated price lies between 0 and the final shared price |
| Calculators.DedicatedIsNegativeIff | src/calculator.rs:60-61 | the dedicated price of a positive cost is negative if and only if that discount exceeds 100 |
| Calculators.CuIsPiecewise | src/calculator.rs:305-310 | compute units as one piecewise-linear function of memory per core |
| Calculators.CuIsMonotone | src/calculator.rs:305-310 | compute units never fall when cores or memory grow |
| Calculators.Calculator.CalculateContractOverdue | src/calculator.rs:91-127 | terminates when no node lists a rent contract; a rent contract owes the ceiling of its own amount plus the rounded-up amounts on its node |
| Calculators.Calculator.CalculateTotalContractsOverdueOnNode | src/calculator.rs:142-152 | the sum over the node's list, or its first failure |
| Bills.NodeOwes | src/calculator.rs:91-127 | a node's contract owes the ceiling, in TFT, of its two overdrafts, its unbilled use and a month's price for each month passed, all from the chain's own numbers |
| Bills.RentOwes | src/calculator.rs:91-152 | a rent contract owes the dedicated price and the node's fee in place of that, and what the contracts on its node owe besides |
| Bills.NameOwes | src/calculator.rs:91-127 | a name contract owes the ceiling of its two overdrafts |
| Bills.MonthOldOwes | src/calculator.rs:183-274 | a fresh contract a month after its last update owes the ceiling of its monthly price in TFT |
| Bills.CertificationAddsAQuarter | src/calculator.rs:50-53 | certification multiplies the month and the unbilled use by 1.25 and leaves overdrafts alone |
| Bills.OverdraftIsOneTft | src/calculator.rs:270-272 | ten million more of either overdraft are one TFT more to pay, and one more for each time the contract is on the list its rent asks for |
| Bills.PricesAre | src/calculator.rs:55-74 | the shared and the dedicated price after what the payer's balance lets off |
| Calculators.DeletedListedFails | src/calculator.rs:96-99 | a deleted contract in the list makes the rent contract's amount an error |
| Calculators.AllowanceNeverLowers | src/calculator.rs:183-203 | at a fixed clock, with a policy discount of at most 100 or no policy at all, a larger allowance never turns an amount into an error nor lowers it |
| Calculators.TwoCallsSuffice | src/calculator.rs:118-124 | when no node lists a rent contract the recursion is at most two calls deep |
| Calculators.AnswersUnlessTrapped | src/calculator.rs:91-152 | whatever the chain lists, the recursion reaches an amount if and only if the contract sits in no trap: a set whose members have no amount of their own, or are rent contracts with no list or a list that leads back into the set |
| Calculators.SelfListedNeverAnswers | src/calculator.rs:118-151 | a rent contract listed on its own node gets no amount at any recursion depth |
| Calculators.IndexedChainAnswersIff | src/calculator.rs:118-151 | on an indexed chain a contract with an amount of its own gets an overdue amount if and only if it is not a rent contract |
| Calculators.NoRentListedIff | src/calculator.rs:118-124 | on such a chain no list holds a rent contract if and only if there is none |
| Calculators.AddedRentContractNeverAnswers | src/subi.rs:280-299 | which is what inserting a rent contract by hand brings about |
| Placement.PicksFirstAccepted | src/grid_client/mod.rs:1409-1432 | placement fails exactly when no node is suitable, and otherwise yields the first suitable ones in proxy order, at most five |
| Placement.AcceptsIff | src/grid_client/mod.rs:1387-1505 | exactly the nodes are suitable that are up and healthy, offer the features, have the capacity free, and for each wanted address a free one and a complete configuration |
| Ports.FreePort | src/grid_client/mod.rs:1510-1526 | the least free port in range; failure if and only if all are used, hence never below 31743 entries |
| Ports.AllPortsUsed | src/grid_client/mod.rs:1510-1526 | naming every port takes at least 31743 entries, duplicates included |
| Addresses.AcceptsFourLabels | src/grid_client/mod.rs:2152-2174 | a subnet of four dotted labels gives host five of the first three |
| Addresses.AcceptsOnlyFourLabels | src/grid_client/mod.rs:2152-2174 | nothing else is accepted |
| Configs.LastCallDecidesPrimary | src/grid_client/mod.rs:176-261 | the last call concerning a service decides its primary URL, a blank one giving way to the first candidate |
| Configs.UntouchedKeepsDevnet | src/grid_client/mod.rs:139-143 | without such a call the development preset stays |
| Configs.BuiltUrlsAreClean | src/grid_client/mod.rs:250-281 | no built URL ends in a slash, no candidate is empty, and a primary is empty only when nothing is left |
| Configs.TimeoutsSurvive | src/grid_client/mod.rs:176-184 | timeouts are those set last, across `network` and every other call |
| Configs.NormalizeIsIdempotentIff | src/grid_client/mod.rs:279-281 | normalising twice changes nothing if and only if no white space was left before the slashes |
| Configs.PresetIsNamed | src/grid_client/mod.rs:283-291 | a preset has two names, in capital or small letters and between any white space, and no others |
| Configs.CandidatesKeepOrder | src/grid_client/mod.rs:272-281 | a list keeps its usable entries, each normalised, in order |
| Configs.GridClientConfigBuilder.SetNetwork | src/grid_client/mod.rs:176-184 | the preset replaces everything but the timeouts; an unknown name changes nothing |
| Configs.GridClientConfigBuilder.Finish | src/grid_client/mod.rs:250-261 | every list is normalised, then every primary chosen from its own list |

## Left out

- Validation of requests, `deploy_gateway_name`, `deploy_gateway_fqdn` and name or rent contracts: gateway deploys have no rollback, so no-leak claims do not apply; the rest is field checks.
- HTTP, websockets, chain submission, twin registration and the async runtime: replaced by arbitrary answers and a monotone clock; each sleep lasts at least as long as asked.
- In `world.dfy` the chain changes only through the client's own submissions. `OwnSurvivorsAreAccountedFor` allows other clients' transactions in between; the exact statements on the whole chain do not.
- `world.dfy` summarises a relay call by its result; `rmb.dfy` models the call itself, and `LostRepliesAreRetried` links their errors.
- The light and full deploy paths share one body for the passage of a contract (`AnchorAndSettle`) and for an attempt; they differ in the workloads built and in the port request.
- Cryptography (MD5, signatures, decryption) and randomness are uninterpreted functions and arbitrary values; the challenge is not claimed to be injective, since fields are concatenated without separators.
- JSON text: payloads, metadata and workload data are typed values that may fail to parse; flist checksums and address parsing are oracles.
- Integer widths of sizes, counts and money are unbounded, except the 64-bit contract id allocator; calculator arithmetic is over reals, without rounding or the final cast to 64 bits.
- The clock does not advance within one overdue computation.
- Locks, and sharing of one substrate or store between threads: methods run one at a time.
- Network loading: the light form shares one body with the full one; a fragment's mycelium key, CIDR syntax, metadata resolution and the text of the WireGuard configuration are oracles.
- Loading single workloads, gateways, k8s clusters and `compute_k8s_deployment_resources`: lookups and copies without the interplay proved here.
- The round trip has no gateways on the way back, because the reader ignores them.
- The preset endpoint table, `kyc_url` and `sentry_dsn` of the configuration: copied values.
- Setter-only builders of `src/grid_client/types.rs`, tracing and debug dumps.
