# Verification of the testing framework's algorithmic core

The testing framework brings up clusters of blockchain nodes, drives workloads
against them and checks expectations. Around a lot of process, container and
HTTP plumbing it holds a number of small algorithms whose guarantees span files.
This project models those in Dafny and proves what they are there for.

`dafny verify dfyconfig.toml` checks everything.

## What is modelled

* **Genesis and node identities, derived twice** (`Keys`, `Wallet`, `Genesis`,
  `DaMembership`, `PeerGraph`, `Hosts`, `HostMaps`, `NodeConfigs`, `Spending`).
  The topology builder and the cfgsync server derive outputs, declarations, keys,
  membership and peers from the same ids. The server's result refines the
  topology, for every cluster size and every order of arrival, and whatever the
  workload plans to spend from the one is spendable on the other.
* **The rendezvous** (`ConfigRepo`, `CfgsyncServer`): hosts register, a poller
  waits for them, a release or a timeout answers them, in any interleaving.
* **The block feed** (`BlockFeed`): a scanner that walks a forking chain back from
  the tip, over any sequence of node snapshots.
* **Workloads and their expectations** (`TxWorkload`, `DaPlan`, `DaCapture`,
  `DaFlow`, `Liveness`): the plan and the check are computed apart and must meet.
* **Restarts and the run lifecycle** (`Chaos`, `Runner`).
* **Configuration trees** (`YamlConfig`, `Json`, `JsonConfig`): signature
  normalisation, defaults, and the assignations sent from server to client.
  `Assignations` follows these from the ids of a topology into every client.

`Wrappers`, `Integers`, `Clocks`, `Sequences`, `Counting`, `Sorting`, `Decimal`, `Bytes`, `Graphs` and
`Mantle` hold what these share.

Code that updates state step by step is a class or a method with loops, proved
equal to a function on values; the lemmas are about that function. Rows naming a
method whose contract is such an equation are followed by the lemmas that say
what the function amounts to.

Conventions: the cryptography is a record of functions (`Genesis.Suite`), with
injectivity required only where a result needs it. Free ports, random ids and
the answers of nodes are parameters. Time is a natural number that never runs
backwards. Ratios are exact. A panic is an error value, or the `Poisoned` phase
of the rendezvous.

## Where the code differs from what one might expect

* The cfgsync server always uses the default star layout, whatever layout the
  topology was built with. The deployed dials are the topology's if and only if
  its layout is a star or it has at most two nodes
  (`NodeConfigs.OnlyStarIsDeployed`); a chain of three fails
  (`NodeConfigs.ChainOfThreeDiffers`).
* The server's key stores lack the wallet keys that the topology's have. The two
  are equal if and only if every account's key is the node's own service key, so
  always with an empty wallet (`NodeConfigs.KeyStoresAgree`); one account with
  another key fails (`NodeConfigs.OneAccountDiffers`).
* One host too many, registered between the last poll and the release, makes the
  release panic while it holds the lock, and from then on nobody is answered. A
  release panics if and only if more hosts wait than expected
  (`CfgsyncServer.ReleasePanicsIffOvertaken`), every server has a run that ends
  so (`CfgsyncServer.PanicIsReachable`), and it stays so
  (`ConfigRepo.PoisonedIsSilent`).
* More than 65536 subnetworks share 16-bit ids, so that members get lost
  (`DaMembership.IdsCollapse`).
* A new scanner emits the whole chain if and only if the reported height is the
  tip's depth; otherwise it drops the oldest blocks, fails, or emits genesis
  (`BlockFeed.HeightMustBeExact`). A running one only needs the height to reach
  back to a seen block (`BlockFeed.HeightMustReachSeen`).
* Two accounts with the same key make the workload spend one output twice
  (`TxWorkload.DoubleSpendIffSharedKey`).
* The chaos workload keeps a cooldown for each target, but a pick waits until no
  target at all is cooling, so the cooldown is in effect a global one
  (`Chaos.CooldownsAddUp`).
* Injecting defaults into a YAML configuration without a cryptarchia section
  skips the normalisation too. The result is clean if and only if there is such
  a section or nothing to clean (`YamlConfig.InjectCleans`); a lone signature
  fails (`YamlConfig.InjectMissesSignature`). The second pass on writing makes up
  for it (`YamlConfig.WrittenIsNormalizedOnce`).

## Model

| member | source | states |
|---|---|---|
| `BlockFeed.Scanner.WalkBack` | testing-framework/core/src/scenario/runtime/block_feed.rs:118-161 | the first loop collects exactly the batch of the recursive walk, marks a header only at height 0, changes nothing on failure, and makes at most `height` requests |
| `BlockFeed.Scanner.Drain` | testing-framework/core/src/scenario/runtime/block_feed.rs:163-168 | the stack is ingested oldest block first; feed, seen set and counter grow by exactly that batch |
| `BlockFeed.Scanner.CatchUp` | testing-framework/core/src/scenario/runtime/block_feed.rs:118-172 | one call takes the whole state to the specified next state, a failure leaves it as it was, and blocks are requested at most `height` times, once for each block emitted |
| `BlockFeed.Scanner.Poll` | testing-framework/core/src/scenario/runtime/block_feed.rs:109-116 | any number of rounds, failed ones skipped, is the fold of the single polls |
| `BlockFeed.Feed.Ingest` | testing-framework/core/src/scenario/runtime/block_feed.rs:56-64 | one record is broadcast and its transactions are counted |
| `BlockFeed.WalkFindsUnseen` | testing-framework/core/src/scenario/runtime/block_feed.rs:125-161 | against an acyclic tree with a fitting height, the walk finds exactly the unseen part of the path to the tip, or fails exactly when the node lacks some of it |
| `BlockFeed.PolledIsUnseen` | testing-framework/core/src/scenario/runtime/block_feed.rs:118-172 | a successful poll appends exactly the unseen path, a failed one changes nothing |
| `BlockFeed.CatchUpKeepsInv` | testing-framework/core/src/scenario/runtime/block_feed.rs:118-172 | every poll keeps: seen is ancestor-closed and is the feed plus genesis, no duplicates, parents first, exact count |
| `BlockFeed.RunSafe` | testing-framework/core/src/scenario/runtime/block_feed.rs:109-172 | over every run with failures and tip switches, the height being exact up to the first success and reaching a seen block after it, nothing is ingested twice, parents precede children, the counter is the sum over ingested blocks, and the feed holds exactly the chains of successfully polled tips |
| `BlockFeed.SuccessIsComplete` | testing-framework/core/src/scenario/runtime/block_feed.rs:118-172 | after a successful poll the feed holds every ancestor-or-self of the tip, and never genesis |
| `BlockFeed.FeedGrows` | testing-framework/core/src/scenario/runtime/block_feed.rs:56-64 | the feed of a run's prefix is a prefix of the run's feed |
| `BlockFeed.HeightMustBeExact` | testing-framework/core/src/scenario/runtime/block_feed.rs:130-133 | a new scanner emits the whole chain if and only if the reported height is the tip's depth, and by how much a smaller height cuts it short |
| `BlockFeed.HeightMustReachSeen` | testing-framework/core/src/scenario/runtime/block_feed.rs:125-133 | a scanner that has seen something emits exactly the unseen blocks if and only if the height reaches back to a seen one |
| `BlockFeed.SelfParentStops` | testing-framework/core/src/scenario/runtime/block_feed.rs:152-157 | a stored block that is its own parent ends the walk and is emitted |
| `DaMembership.DealOut` | testing-framework/configs/src/topology/configs/da.rs:200-211 | the nested loops over the cycling iterator deal window `[id*d, id*d+d)` to each subnetwork, under its 16-bit id |
| `DaMembership.BuildAssignations` | testing-framework/configs/src/topology/configs/da.rs:186-215 | the whole assignment, empty cluster included, is the specified table |
| `DaMembership.DrawIsModular` | testing-framework/configs/src/topology/configs/da.rs:201-206 | draw `t` is element `t mod n` of the sorted peers |
| `DaMembership.AssignedSubnets` | testing-framework/configs/src/topology/configs/da.rs:166-210 | which subnetworks there are, in terms of the configured size and the number of peers |
| `DaMembership.RankIsPlace` | testing-framework/configs/src/topology/configs/da.rs:198-199 | the peer with r smaller peers is the r-th drawn, so draws start at the least peer |
| `DaMembership.AssignedByRank` | testing-framework/configs/src/topology/configs/da.rs:186-211 | the whole assignment without sorting or looping: a peer serves subnetwork k if and only if one of the d draws from k*d on hits its rank in the cycle |
| `DaMembership.EverySubnetFull` | testing-framework/configs/src/topology/configs/da.rs:202-211 | every subnetwork has exactly min(dispersal, n) members, all of them peers |
| `DaMembership.FairShare` | testing-framework/configs/src/topology/configs/da.rs:198-211 | each peer serves floor or ceiling of size*d/n subnetworks, or all of them when d exceeds n, with size and d spelled out |
| `DaMembership.EveryPeerServes` | testing-framework/configs/src/topology/configs/da.rs:164-211 | no peer is left without a subnetwork |
| `DaMembership.OrderIrrelevant` | testing-framework/configs/src/topology/configs/da.rs:198-199 | permuting the peers leaves the assignment unchanged |
| `DaMembership.IdsCollapse` | testing-framework/configs/src/topology/configs/da.rs:210 | the subnetworks keep distinct ids if and only if there are at most 65536 |
| `DaMembership.NodeCountParams` | testing-framework/core/src/topology/config.rs:95-116 | the parameters for one node, and for any greater number |
| `DaMembership.NodeCountTopologyIsRegular` | testing-framework/core/src/topology/config.rs:95-116 | with the parameters for a node count, every subnetwork has min(2, n) members and every peer serves exactly min(2, n) |
| `Keys.SecretsCoincide` | testing-framework/configs/src/topology/configs/consensus.rs:214-262 | two genesis secrets are equal if and only if they belong to the same slot, or have the same kind and belong to nodes whose ids agree in their first 14 bytes |
| `Keys.KeySeparation` | testing-framework/configs/src/topology/configs/consensus.rs:214-262 | all leader, service and wallet secrets are distinct if and only if the ids differ pairwise in their first 14 bytes |
| `Keys.SecretBound` | testing-framework/configs/src/topology/configs/consensus.rs:214-223 | every secret is below 2^128 |
| `Keys.SecretLayout` | testing-framework/configs/src/topology/configs/consensus.rs:214-262 | every secret as a number: two letters for the kind of note, then 14 bytes of the id or the account index |
| `Wallet.Uniform` | testing-framework/configs/src/topology/configs/wallet.rs:19-43 | the loop with its running remainder gives the specified split, or rejects too little money |
| `Wallet.UniformIsExact` | testing-framework/configs/src/topology/configs/wallet.rs:27-40 | the split loses nothing, leaves nobody empty, is even up to one token with earlier accounts favoured |
| `Wallet.DeterministicKeysApart` | testing-framework/configs/src/topology/configs/wallet.rs:66-73 | accounts made by index never share a key |
| `Genesis.CreateUtxos` | testing-framework/configs/src/topology/configs/consensus.rs:208-279 | the loop with its running index yields three outputs for each node, and leader keys and service notes in node order |
| `Genesis.AppendWalletUtxos` | testing-framework/configs/src/topology/configs/consensus.rs:281-291 | wallet outputs follow in account order |
| `Genesis.CreateGenesisTx` | testing-framework/configs/src/topology/configs/consensus.rs:294-356 | the two push loops build the specified operations and proofs |
| `Genesis.LockedNotesExist` | testing-framework/configs/src/topology/configs/consensus.rs:227-275 | each note's output index (3i+1 or 3i+2) points at that very note in the final outputs, wallets included |
| `Genesis.LocksAreDistinct` | testing-framework/configs/src/topology/configs/consensus.rs:309-323 | no two declarations lock the same output |
| `Genesis.ProofsLineUp` | testing-framework/configs/src/topology/configs/consensus.rs:307-347 | operations and proofs pair up, each proof signed over the final hash with the keys its declaration names |
| `Genesis.TotalSupply` | testing-framework/configs/src/topology/configs/consensus.rs:236-291 | the outputs add up to 1002 for each node plus the wallet funds |
| `Genesis.KeysOwnNotes` | testing-framework/configs/src/topology/configs/consensus.rs:231-275 | the leader, DA and blend keys derived for a node own its stake of 1000 and its two notes of 1, and are the secrets of those slots |
| `Genesis.OwnersApart` | testing-framework/configs/src/topology/configs/consensus.rs:231-287 | with ids that differ in 14 bytes, accounts made by index and injective key derivation, no two outputs have the same owner |
| `Genesis.DeclarationsNameTheirNodes` | testing-framework/configs/src/topology/configs/consensus.rs:305-323 | what each declaration says in full: service, locator, identities, and the note it locks among this transaction's own outputs |
| `PeerGraph.BuildInitialPeers` | testing-framework/configs/src/topology/configs/network.rs:91-131 | the push loops of each layout build the specified peer lists |
| `PeerGraph.LayoutNames` | testing-framework/configs/src/topology/configs/network.rs:97-128 | with distinct ports, node i's list names node j if and only if the layout has i know j |
| `PeerGraph.LayoutAddresses` | testing-framework/configs/src/topology/configs/network.rs:97-128 | the same for the full local address |
| `PeerGraph.ExpectedPeerCounts` | testing-framework/core/src/topology/generation.rs:274-295 | the counts are the degrees in the symmetric closure of the dial relation, self-dials and unknown ports left out |
| `PeerGraph.CountsAddUp` | testing-framework/core/src/topology/generation.rs:274-295 | the counts add up to twice the number of links |
| `PeerGraph.LayoutIsConnected` | testing-framework/configs/src/topology/configs/network.rs:97-128 | every layout gives a connected graph with that layout's degrees |
| `PeerGraph.RewrittenNames` | testing-framework/tools/cfgsync/src/network/peers.rs:14-31 | a rewritten list holds host j if and only if the template named j's port and j is not the node itself |
| `PeerGraph.RewriteKeepsEdges` | testing-framework/tools/cfgsync/src/network/peers.rs:14-31 | rewriting keeps the directed dial relation exactly and adds nothing |
| `PeerGraph.FindFirst` | testing-framework/tools/cfgsync/src/network/address.rs:13-19 | the position found is the first one holding the port |
| `Sorting.SortRecovers` | testing-framework/tools/cfgsync/src/host.rs:61-76 | any arrangement of elements told apart by their keys sorts to the one sorted arrangement |
| `Decimal.ParseOfPrint` | testing-framework/tools/cfgsync/src/host.rs:63-68 | parsing a printed number gives it back if and only if the type can hold it |
| `Decimal.ParsePlus` | testing-framework/tools/cfgsync/src/host.rs:67 | a leading plus sign is accepted, text without digits is not |
| `Decimal.ParseDigitsOnly` | testing-framework/tools/cfgsync/src/host.rs:67-68 | text with any other character does not parse |
| `Hosts.IndexOfNamedHost` | testing-framework/tools/cfgsync/src/host.rs:62-74 | the sort key of a host named role-index is that role and index |
| `Hosts.IndexOfNumberedHost` | testing-framework/tools/cfgsync/src/host.rs:63-68 | what counts is the number after the last hyphen, or the whole name, and 0 if it does not fit |
| `Hosts.ArrivalOrderIrrelevant` | testing-framework/tools/cfgsync/src/host.rs:61-76 | whatever the order of arrival, validator i is sorted to place i and executor j to place v + j |
| `Hosts.UnnumberedIsZero` | testing-framework/tools/cfgsync/src/host.rs:63-68 | a host whose name does not end in a digit counts as number 0 |
| `Hosts.TiesKeepOrder` | testing-framework/tools/cfgsync/src/host.rs:62 | hosts of the same kind and number keep the order they came in |
| `NodeConfigs.BuildTopology` | testing-framework/core/src/topology/config.rs:243-351 | the builder's loops yield the specified topology, or the specified failure |
| `NodeConfigs.SplitByRole` | testing-framework/core/src/topology/config.rs:305-344 | pushing by role splits the participants into the first v and the rest, in order |
| `NodeConfigs.CreateNodeConfigs` | testing-framework/tools/cfgsync/src/config/builder.rs:35-164 | the server's loops yield the specified map from hosts to configurations, or the first failed validation |
| `NodeConfigs.CfgsyncRefinesTopology` | testing-framework/tools/cfgsync/src/config/builder.rs:45-163 | for every count, ids, wallet and arrival order: same-role same-index hosts get the topology node's identity, outputs are equal, declarations are equal in order up to locators, and each locator is the address of the host holding the declared key |
| `NodeConfigs.HostDeploysNode` | testing-framework/core/src/topology/config.rs:308-344 | the refinement read off for one host |
| `NodeConfigs.HostsDialTheFirst` | testing-framework/tools/cfgsync/src/config/builder.rs:77-92 | the first host is told to dial nobody, every other host exactly one address: the external address the first host announces |
| `NodeConfigs.OnlyStarIsDeployed` | testing-framework/tools/cfgsync/src/config/builder.rs:200 | with distinct peer ids, the deployed dials are those of a layout if and only if it is a star or has at most two nodes |
| `NodeConfigs.ChainOfThreeDiffers` | testing-framework/tools/cfgsync/src/config/builder.rs:200 | a chain of three nodes is not deployed as a chain |
| `NodeConfigs.KeyStoresAgree` | testing-framework/tools/cfgsync/src/config/builder.rs:107-108 | a host's key store equals its topology node's if and only if every account's key is the node's service key |
| `NodeConfigs.OneAccountDiffers` | testing-framework/core/src/topology/config.rs:302-303 | one account with another key makes the two stores differ |
| `NodeConfigs.OnlyExactHostCount` | testing-framework/tools/cfgsync/src/config/validation.rs:18-62 | configurations are built if and only if the host count matches, is positive, and every given list has that length; they cover exactly the hosts |
| `NodeConfigs.CreationFailsExactly` | testing-framework/tools/cfgsync/src/config/validation.rs:27-61 | which error is reported for which mismatch, in the order of the checks |
| `NodeConfigs.HandedServes` | testing-framework/tools/cfgsync/src/config/builder.rs:110-161 | whatever the server was set up with, each host's configuration listens on that host's ports, announces its address, holds the identities and key store of its id, its place in the membership, and the key that owns its stake in its own genesis |
| `NodeConfigs.HandedDialsReach` | testing-framework/tools/cfgsync/src/config/builder.rs:87-136 | every address told is the ip, listening port and peer of the key in the first host's own configuration |
| `NodeConfigs.TopologyNodeServes` | testing-framework/core/src/topology/config.rs:308-338 | the same for each node of the topology, wallet keys included |
| `NodeConfigs.TopologyDialsAsLaidOut` | testing-framework/core/src/topology/config.rs:262 | node i is told where node j listens if and only if the configured layout has i know j |
| `NodeConfigs.TopologyLocators` | testing-framework/core/src/topology/config.rs:268-290 | each declaration's locator is where the declaring node's service listens |
| `NodeConfigs.TopologyFailsExactly` | testing-framework/core/src/topology/config.rs:251-256 | building fails only on an empty topology or on lists of the wrong length |
| `Spending.PlanIsSpendableOnEveryHost` | testing-framework/workflows/src/workloads/transaction/workload.rs:60-75 | each transaction planned from the topology's genesis spends an output that exists, under the same hash and unlocked, in the genesis handed to every host |
| `ConfigRepo.Repo.Register` | testing-framework/tools/cfgsync/src/repo.rs:91-94 | a registration replaces the host's sender; on a poisoned lock it leaves no trace |
| `ConfigRepo.Repo.Poll` | testing-framework/tools/cfgsync/src/repo.rs:130-137 | a round is ready exactly when enough hosts wait |
| `ConfigRepo.Repo.Release` | testing-framework/tools/cfgsync/src/repo.rs:102-119 | the drain loop is the specified release step, panic included |
| `ConfigRepo.Repo.Expire` | testing-framework/tools/cfgsync/src/repo.rs:120-127 | the drain loop is the specified timeout step |
| `ConfigRepo.StepKeepsInv` | testing-framework/tools/cfgsync/src/repo.rs:91-137 | every step of every interleaving keeps: no sender answered twice or waiting after its answer, replies of one kind |
| `ConfigRepo.RunSafe` | testing-framework/tools/cfgsync/src/repo.rs:91-137 | in every reachable state no sender was answered twice, all replies are of one kind, and configurations went out to exactly n_hosts |
| `ConfigRepo.WaitersAnswered` | testing-framework/tools/cfgsync/src/repo.rs:116-126 | a release or timeout answers the current sender of every waiting host, with that host's configuration, and empties the map |
| `ConfigRepo.ReplacedIsDropped` | testing-framework/tools/cfgsync/src/repo.rs:91-94 | a later registration of the same host leaves the former sender neither waiting nor answered |
| `ConfigRepo.DroppedStaysUnanswered` | testing-framework/tools/cfgsync/src/repo.rs:91-127 | and such a sender is never answered in the rest of the run |
| `ConfigRepo.PoisonedIsSilent` | testing-framework/tools/cfgsync/src/repo.rs:102-114 | after a panicking release nobody is answered in the rest of the run |
| `CfgsyncServer.ReleaseNeedsExactCount` | testing-framework/tools/cfgsync/src/repo.rs:105-114 | a release goes through if and only if exactly n_hosts hosts wait |
| `CfgsyncServer.ReleasePanicsIffOvertaken` | testing-framework/tools/cfgsync/src/repo.rs:99-114 | in every run a release poisons the lock if and only if more than n_hosts wait, and answers if and only if exactly n_hosts do |
| `ConfigRepo.OvertakenRelease` | testing-framework/tools/cfgsync/src/repo.rs:91-137 | for every expected count there is a run of that many registrations, a poll, one more registration and a release that panics |
| `CfgsyncServer.PanicIsReachable` | testing-framework/tools/cfgsync/src/repo.rs:91-137 | every server has such a run, with one host more waiting than it was set up for |
| `CfgsyncServer.ReleaseDeploysTopology` | testing-framework/tools/cfgsync/src/repo.rs:96-119 | from the rendezvous to the identity: each waiting host of a topology is answered with the configuration that deploys its node |
| `CfgsyncServer.ReplyDeploysNode` | testing-framework/tools/cfgsync/src/repo.rs:91-137 | over every run, whatever configuration a waiting host's current sender is answered with deploys the topology node of that role and index |
| `Assignations.ClientRecoversAssignment` | testing-framework/tools/cfgsync/src/server.rs:166-177 | over every run, the client of each host recovers exactly the round-robin assignment of the topology's peers from what it is sent |
| `TxWorkload.Workload.Init` | testing-framework/workflows/src/workloads/transaction/workload.rs:49-93 | accounts become the matched and limited inputs, or stay as they were on an error |
| `TxWorkload.Workload.Start` | testing-framework/workflows/src/workloads/transaction/workload.rs:150-197 | what gets submitted is a prefix of the plan, the whole of it on success, ending at the first rejection |
| `TxWorkload.NoAccountDropped` | testing-framework/workflows/src/workloads/transaction/workload.rs:66-75 | every account is matched, in order, to an output it owns |
| `TxWorkload.MatchesOwnOutput` | testing-framework/workflows/src/workloads/transaction/workload.rs:228-239 | an account gets its own output if and only if no later account shares its key |
| `TxWorkload.PlansAgree` | testing-framework/workflows/src/workloads/transaction/expectation.rs:74-100 | for every wallet, limit, rate and run, workload and expectation agree on failing, on the count, and on whose outputs are tracked |
| `TxWorkload.RequestedIsRate` | testing-framework/workflows/src/workloads/transaction/workload.rs:261-271 | the run asks for the greatest number of transactions whose block time fits into duration times rate, cut off to 64 bits |
| `TxWorkload.PlanIsExact` | testing-framework/workflows/src/workloads/transaction/workload.rs:252-279 | the plan is the least of those asked for, the user limit and the accounts; and which error is returned when there is none |
| `TxWorkload.ValueConserved` | testing-framework/workflows/src/workloads/transaction/workload.rs:209-226 | whatever part of a plan is submitted pays out exactly what it spends |
| `TxWorkload.DoubleSpendIffSharedKey` | testing-framework/workflows/src/workloads/transaction/workload.rs:228-239 | no output is spent twice if and only if the planned accounts have distinct keys |
| `TxWorkload.UniformWalletNeverDoubleSpends` | testing-framework/configs/src/topology/configs/wallet.rs:66-73 | a uniform wallet meets that condition |
| `TxWorkload.InclusionCapture.Receive` | testing-framework/workflows/src/workloads/transaction/expectation.rs:110-124 | the counter is the number of transactions paying a tracked key in the received blocks, first blocks skipped |
| `TxWorkload.HalfOfThePlanSuffices` | testing-framework/workflows/src/workloads/transaction/expectation.rs:79-172 | plan implies check: if at least half of the transfers the workload plans are seen in transactions of their own, the expectation has a plan too and holds |
| `TxWorkload.InclusionVerdict` | testing-framework/workflows/src/workloads/transaction/expectation.rs:92-172 | the verdict in full: it holds if and only if the watched transactions paying some planned owner are at least half as many as the plan |
| `DaPlan.ChannelIdsApart` | testing-framework/workflows/src/workloads/da/workload.rs:284-295 | planned channel ids are pairwise distinct |
| `DaPlan.ChannelIdLayout` | testing-framework/workflows/src/workloads/da/workload.rs:290-295 | eight letters, sixteen zeros, and the index with its highest byte first |
| `DaPlan.ChannelCountHasHeadroom` | testing-framework/workflows/src/workloads/da/workload.rs:298-303 | the rate plus the headroom in percent, rounded up |
| `DaPlan.BlobCountIsRate` | testing-framework/workflows/src/workloads/da/workload.rs:306-309 | the rate for each expected block, one at least, cut off to 64 bits |
| `DaPlan.TargetIsLeast` | testing-framework/workflows/src/workloads/da/workload.rs:312-318 | the target is the least positive number that covers the planned blobs |
| `DaPlan.TargetCoversPlan` | testing-framework/workflows/src/workloads/da/workload.rs:312-318 | filling every channel to its target covers the planned blobs |
| `DaPlan.MinimumRequired` | testing-framework/workflows/src/workloads/da/expectation.rs:311-317 | the least number that is at least 80 percent |
| `DaCapture.Capture.Receive` | testing-framework/workflows/src/workloads/da/expectation.rs:265-305 | the loops update set and map as specified for one block |
| `DaCapture.CaptureIsExact` | testing-framework/workflows/src/workloads/da/expectation.rs:265-305 | after any blocks, the set is the planned channels inscribed, the map counts blobs for each planned channel exactly, and its values add up to all of them |
| `DaCapture.TotalByChannel` | testing-framework/workflows/src/workloads/da/expectation.rs:205-208 | the total equals the sum of the counts over the planned channels |
| `DaFlow.FindOp` | testing-framework/workflows/src/workloads/util.rs:16-33 | the nested loops find the first matching operation of the block |
| `DaFlow.WaitFor` | testing-framework/workflows/src/workloads/da/workload.rs:176-225 | waiting yields the first sighting in what is left of the receiver, lag notices skipped, or fails when the feed closes |
| `DaFlow.AwaitIsFirst` | testing-framework/workflows/src/workloads/da/workload.rs:181-201 | no earlier delivery shows a match |
| `DaFlow.RunChannelFlow` | testing-framework/workflows/src/workloads/da/workload.rs:129-158 | the loop over blobs, each waiting for the child of the last, yields the specified sightings |
| `DaFlow.FlowCompletes` | testing-framework/workflows/src/workloads/da/workload.rs:138-156 | a flow completes if and only if every blob is published and every wait, from where the last message was found, is over before the feed closes |
| `DaFlow.FlowIsChain` | testing-framework/workflows/src/workloads/da/workload.rs:138-156 | what a completed flow has seen is a chain starting at the inscription |
| `DaFlow.ChainIsLinked` | testing-framework/workflows/src/workloads/da/workload.rs:141-156 | confirmed messages are parent-linked and lie in strictly later block records |
| `DaFlow.FlowsAreCaptured` | testing-framework/workflows/src/workloads/da/expectation.rs:265-305 | capture over the whole feed holds every inscription and at least target blobs for each completed flow |
| `DaFlow.CompletedFlowsPassCheck` | testing-framework/workflows/src/workloads/da/expectation.rs:172-262 | if all flows complete, capture misses nothing and blocks do not exceed max(expected, 1), the evaluation succeeds |
| `DaFlow.EvaluateIsExact` | testing-framework/workflows/src/workloads/da/expectation.rs:179-261 | the verdict in full: success if and only if four fifths of the planned channels and of the expected blobs were seen, and which error with which numbers otherwise |
| `Chaos.Targets` | testing-framework/workflows/src/workloads/chaos.rs:42-60 | the list holds exactly the eligible targets, each once, and how many these are |
| `Chaos.NextReady` | testing-framework/workflows/src/workloads/chaos.rs:97-102 | the least cooldown that lies ahead, or none if nothing is cooling |
| `Chaos.PickTarget` | testing-framework/workflows/src/workloads/chaos.rs:90-130 | terminates, returns a target, and at that time nothing is cooling, so the last resort is never reached |
| `Chaos.Start` | testing-framework/workflows/src/workloads/chaos.rs:139-182 | every pick of every run, the one whose restart fails included, is an eligible target, at least a cooldown and a minimal delay after the previous restart was over; errors exactly without targets or at the first failed restart |
| `Chaos.CooldownsAddUp` | testing-framework/workflows/src/workloads/chaos.rs:157-181 | restarts k apart are k cooldowns, and k minimal delays, apart, whatever their targets |
| `Chaos.PerNodeCooldown` | testing-framework/workflows/src/workloads/chaos.rs:157-181 | no node is picked within its cooldown |
| `Chaos.SoleValidatorSafe` | testing-framework/workflows/src/workloads/chaos.rs:45-52 | a cluster's only validator is never restarted |
| `Chaos.TargetsExist` | testing-framework/workflows/src/workloads/chaos.rs:42-60 | every restart hits an existing node of an included kind, validators only if there are two |
| `Runner.DriveUntilTimer` | testing-framework/core/src/scenario/runtime/runner.rs:229-246 | joins keep the account of tasks; Ok without a timeout means none is pending; a timeout comes only after the duration |
| `Runner.DrainWorkloads` | testing-framework/core/src/scenario/runtime/runner.rs:250-260 | after the abort every task is joined, unless one failed |
| `Runner.RunWorkloads` | testing-framework/core/src/scenario/runtime/runner.rs:98-123 | Ok if and only if every task finished Ok or was cancelled by the abort, with none pending; and no task is cancelled before the duration and the cooldown are over |
| `Runner.CooldownFor` | testing-framework/core/src/scenario/runtime/runner.rs:167-198 | when there is a cooldown, and that it is the greatest of five blocks, the security parameter's blocks, and half a minute if nodes may be restarted |
| `Runner.ScenarioRunner.Cleanup` | testing-framework/core/src/scenario/runtime/runner.rs:39-43 | takes the guard and runs it once, if it is still there |
| `Runner.ScenarioRunner.Evaluate` | testing-framework/core/src/scenario/runtime/runner.rs:143-165 | all expectations are evaluated and exactly the failing ones gathered, unless one panics |
| `Runner.ScenarioRunner.Run` | testing-framework/core/src/scenario/runtime/runner.rs:52-82 | on every path the run follows the specified lifecycle and the guard is either run once or handed over |
| `Runner.RunHandle.Drop` | testing-framework/core/src/scenario/runtime/context.rs:117-123 | dropping the handle runs the guard once |
| `Runner.LiveAndDie` | testing-framework/core/src/scenario/runtime/runner.rs:290-294 | whatever becomes of a runner and its handle, the guard runs exactly once |
| `Runner.EvaluatedOnlyAfterSuccess` | testing-framework/core/src/scenario/runtime/runner.rs:59-79 | an evaluation happens only after all captures and the workloads succeeded, and in order |
| `Runner.HandedOverIffAllSucceed` | testing-framework/core/src/scenario/runtime/runner.rs:59-81 | a handle is returned if and only if everything succeeded, cleanup happens if and only if not, and without a panic every expectation is heard |
| `Runner.CleanupIsLast` | testing-framework/core/src/scenario/runtime/runner.rs:59-81 | cleanup by the runner itself is the last event of a run |
| `Runner.EndingIsExact` | testing-framework/core/src/scenario/runtime/runner.rs:59-81 | which ending follows from which calls |
| `Runner.EventsAreExact` | testing-framework/core/src/scenario/runtime/runner.rs:59-81 | which captures, workloads and evaluations happen |
| `YamlConfig.NormalizeSigs` | testing-framework/core/src/nodes/common/config/injection.rs:5-30 | the recursive loops compute the specified tree |
| `YamlConfig.NormalizedIsClean` | testing-framework/core/src/nodes/common/config/injection.rs:5-30 | no `ed25519_sig` is bound to a byte sequence at any depth afterwards |
| `YamlConfig.CleanIffFixed` | testing-framework/core/src/nodes/common/config/injection.rs:5-30 | exactly the clean trees are left as they are |
| `YamlConfig.RawSigIsBytes` | testing-framework/core/src/nodes/common/config/injection.rs:9-17 | what is rewritten: a sequence of integers from 0 to 255 under the key `ed25519_sig`, and nothing else |
| `YamlConfig.Idempotent` | testing-framework/core/src/nodes/common/config/injection.rs:5-30 | normalising twice is normalising once |
| `YamlConfig.ChangesOnlySigs` | testing-framework/core/src/nodes/common/config/injection.rs:5-30 | path by path: a rewritten signature decodes to its bytes, and everything else is unchanged |
| `YamlConfig.InjectIdempotent` | testing-framework/core/src/nodes/common/config/injection.rs:33-41 | injecting twice is injecting once |
| `YamlConfig.DefaultsNeverOverwrite` | testing-framework/core/src/nodes/common/config/injection.rs:50-96 | every key of the section keeps its place and value; a bootstrap mapping may gain only the missing `ibd` |
| `YamlConfig.DefaultsAppended` | testing-framework/core/src/nodes/common/config/injection.rs:50-77 | which defaults are appended under which missing keys, in order |
| `YamlConfig.IbdFilledIn` | testing-framework/core/src/nodes/common/config/injection.rs:79-96 | a bootstrap mapping without `ibd` gets one with an empty list of peers |
| `YamlConfig.OnlyTheSectionChanges` | testing-framework/core/src/nodes/common/config/injection.rs:43-48 | defaults go into the cryptarchia mapping at the root and nowhere else |
| `YamlConfig.WrittenIsNormalizedOnce` | testing-framework/core/src/nodes/common/lifecycle/spawn.rs:42-45 | the doubled normalisation on writing is harmless, and the written tree is always clean |
| `YamlConfig.InjectCleans` | testing-framework/core/src/nodes/common/config/injection.rs:33-41 | injection alone leaves a clean tree if and only if it has the section or was clean |
| `YamlConfig.InjectMissesSignature` | testing-framework/core/src/nodes/common/config/injection.rs:34-36 | a signature in a file without the section survives injection, and only writing rewrites it |
| `Json.GetOfUpdate` | testing-framework/tools/cfgsync/src/server.rs:232-272 | an edit through a pointer is seen at its own path |
| `Json.UpdateElsewhere` | testing-framework/tools/cfgsync/src/server.rs:232-272 | and at no path that parts from it (section 4 of RFC 6901) |
| `Json.ArrayIndexIsDecimal` | testing-framework/tools/cfgsync/src/server.rs:232-272 | a pointer token addresses array element i if and only if it is i in plain decimal |
| `JsonConfig.EncodeAssignations` | testing-framework/tools/cfgsync/src/server.rs:250-259 | the rendering has exactly the decimal ids as keys and the members as arrays, in any order |
| `JsonConfig.ParseAssignations` | testing-framework/tools/cfgsync/src/bin/cfgsync-client.rs:27-47 | nothing as soon as one entry is malformed; otherwise each id with the members of a key that reads as it, unreadable peers skipped |
| `JsonConfig.ParsedInFull` | testing-framework/tools/cfgsync/src/bin/cfgsync-client.rs:33-46 | parsing succeeds if and only if every key is a 16-bit number and every value an array; which ids and which peers come out |
| `JsonConfig.AssignationsRoundTrip` | testing-framework/tools/cfgsync/src/bin/cfgsync-client.rs:27-47 | parsing any rendering of a membership gives back that membership |
| `JsonConfig.EditsKeepAssignations` | testing-framework/tools/cfgsync/src/server.rs:232-297 | the client finds exactly the object the server put in; the other edits do not touch it |
| `JsonConfig.EditsReadBack` | testing-framework/tools/cfgsync/src/server.rs:232-297 | each port, the session minimum and the defaults are seen at their own addresses, if those exist, and other values are left |
| `JsonConfig.ServedRoundTrip` | testing-framework/tools/cfgsync/src/server.rs:169-176 | for every configuration, port override and membership, the client recovers exactly the membership |
| `JsonConfig.DefaultsKeepFields` | testing-framework/tools/cfgsync/src/server.rs:274-297 | defaults keep every field; a bootstrap object may gain only the missing `ibd` |
| `JsonConfig.DefaultsFilledIn` | testing-framework/tools/cfgsync/src/server.rs:288-295 | which defaults end up under which keys, and that nothing else is added |
| `JsonConfig.BootstrapFilledIn` | testing-framework/tools/cfgsync/src/server.rs:279-286 | a missing bootstrap object, or one without `ibd`, gets the default |
| `JsonConfig.DefaultsIdempotent` | testing-framework/tools/cfgsync/src/server.rs:274-297 | filling in defaults twice is filling them in once |
| `Liveness.CollectResults` | testing-framework/workflows/src/expectations/consensus_liveness.rs:100-127 | the retry loops gather the first answers and the failures, client by client |
| `Liveness.EveryClientOnce` | testing-framework/workflows/src/expectations/consensus_liveness.rs:105-124 | each client gets exactly one sample or one failure |
| `Liveness.FirstOfFive` | testing-framework/workflows/src/expectations/consensus_liveness.rs:106-123 | the answer that counts is the earliest of five attempts |
| `Liveness.Allowance` | testing-framework/workflows/src/expectations/consensus_liveness.rs:144-146 | the value nearest to a tenth of the target between the configured lag and 5 |
| `Liveness.Report` | testing-framework/workflows/src/expectations/consensus_liveness.rs:148-206 | the verdict is good if and only if there is a sample, nothing failed, the maximum is at least 5 and every height plus allowance reaches the target; target, laggards and a chain too short are reported |
| `Liveness.Evaluate` | testing-framework/workflows/src/expectations/consensus_liveness.rs:39-45 | from raw answers to the verdict: good if and only if there is a client, all answered in time, the highest first answer is at least 5 and every one is within the allowance of the hint, or of the highest if the hint is 0 or beyond it; missing participants if and only if nobody answered |

## Left out

- Docker, Helm, kubectl and process handling, port forwarding, templates, scripts: input and output only.
- HTTP clients, readiness probes and metric queries: thin wrappers over network calls.
- The cryptography, multiaddress and peer id codecs, and the internals of the DA membership type: functions given from outside.
- `GenesisTx::from_tx` rejecting an invalid transaction: the check lies in a library that is not part of this model.
- The derivation of run metrics from slot timing: floating-point arithmetic on configuration values; metrics are parameters here.
- The file format of YAML and JSON: only the value trees are modelled.
- The capacity of the broadcast channel: lag notices may occur anywhere instead.
- Retries of transaction submission and blob publication across clients: an oracle says whether the cluster accepts.
- Liveness of the DA flow: it subscribes after submitting and tolerates lag, so that an inscription may go unseen.
- The early return of `start_capture` when a capture is already running: it only adds an easy case.
- The port allocator: ports are parameters, distinct where a result requires it.
- YamlConfig.NormalizeSigs: builds a new tree where the source mutates in place, so aliasing of subtrees is not captured.
- JsonConfig.EncodeAssignations: the edits of the server return new values where the source mutates through pointers, so aliasing is not captured.
- BlockFeed.RunSafe: assumes that blocks do not change and that the height is exact up to the first success and reaches a seen block after it; BlockFeed.HeightMustBeExact and BlockFeed.HeightMustReachSeen show why.
- NodeConfigs.BuildTopology: bootstrap, tracing and time settings are not modelled; they are constants or come from the environment, and nothing else depends on them.
- NodeConfigs.CreateNodeConfigs: bootstrap, tracing and time settings are not modelled, for the same reason.
- Liveness.Report: heights are unbounded, so a height within 5 of the 64-bit limit, where the source's sum overflows, is not captured.
- Wallet.Uniform: rejection by assertion is an error value; values are unbounded, as no sum exceeds the 64-bit total.
- DaFlow.CompletedFlowsPassCheck: requires that the unchecked additions of the plan do not overflow 64 bits, as the source needs too.
- DaPlan.MinimumRequired: 80 percent is exact, so rounding of 64-bit floating point on large totals is not captured.
- TxWorkload.Workload.Start: the pause between submissions is not modelled, and the planned count is exact where the source rounds in floating point.
- Chaos.Start: observed for any finite number of restarts; the source goes on until it is cancelled.
- Runner.ScenarioRunner.Run: the settling pause before expectations is not modelled; a timer may fire at any point.
