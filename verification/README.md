# A verified model of the node's hardest state machines

This project models the hardest components of an Avalanche node with a parallel DAG engine, and proves what
each of them is for. Every component is a module of its own.

- **IP tracker** (`TrackerModel`, `GossipSubnet`, `TrackerMeaning`, `IPTracker`): about ten handlers keep
  four linked maps, a swap-remove array with a reverse index, three gauges and a capped bloom filter. The
  class is tied to a simple history model (who validates, who was tracked or gossiped by hand, who is
  connected, the latest address of each tracked node), and each handler is proved to be one step of it.
- **Peer lifecycle** (`PeerLifecycle`): connecting, connected, disconnecting, dialling and closing as
  atomic steps of arbitrary interleavings. The alternation it proves is the tracker's precondition, and
  `TrackerOfNetwork` puts the two together.
- **Genesis funds** (`Genesis`, `GenesisState`): locked funds as sequences of single units, the split into
  equal shares, and where every unit of the supply ends up.
- **API router** (`Router`): endpoints forwarded along an alias graph that may be cyclic.
- **Health worker** (`Health`): incremental failure gauges against a full recount.
- **Index of accepted containers** (`Index`): two tables and a counter behind an atomically committed
  overlay, with a fault possible at every database call, and a restart at any time.
- **Indexer policy** (`Indexer`): which chains may be indexed, over all runs on one database.
- **DAG and consensus engine** (`Vertices`, `Dag`, `PrioritySort`, `EngineModel`, `Decisions`, `Engine`):
  an incrementally kept frontier, batches processed by workers in any order, and decision rounds.
- **ID bit ranges** (`Bits`): masked byte operations against the value of each bit.
- **Block store** (`BlockBytes`, `Blockchain`): identifiers, heights, edge of the graph, pool.

Conventions. A critical section under a lock is one step. Ranging over a Go map or set is a loop that
picks any remaining member (`Common.Pick`), so every contract holds for every order. Identifiers are
integers unless their bytes matter. Database, clock, random and library calls appear as parameters:
`reset: Option<int>` is the outcome of creating a new bloom filter, `Fault`, `Faults` and `Put` say which
database call fails and whether a failed write was applied, `now` is a time. Ghost fields (`model`, `log`,
`history`, `chain`, `added`, `atReset`) state what an object means; no method's behaviour depends on them.

Where the code and its documentation differ, the code is modelled:

- the comment at `default/network/ip_tracker.go:128-132` says a listed address is the one the node
  connected with; the code lists the latest tracked address (`ListedButNotConnectedWith`);
- the comment at `default/indexer/index.go:204` allows a range of size 0, which the code refuses;
- the check of a genesis configuration counts the locked funds of all addresses, so it accepts
  configurations on which building the genesis indexes past the last bucket (`ValidatedMayCrash`;
  `FromConfig` states exactly when);
- the gauges of the health worker are meant to count the failing checks of a tag and of the application
  tag (`default/api/health/worker.go:121-123, 305-306`); an application check that brings a new tag while
  another one fails, or a plain check that names a tag twice, leaves them wrong (`MiscountedNewTag`,
  `MiscountedTwice`; `RegisterCheck` states exactly when);
- a vertex that fails verification is said to be rejected (`pkg/consensus/adapter.go:119-126`) but stays
  stored, and a round can accept conflicting transactions from it (`UnverifiedConflict`;
  `ApartIffNoClash` states exactly when);
- the height of a new block is said to be the maximum of its parents' heights plus one
  (`pkg/blockchain/blockchain.go:98`); the last parent at or above the current height decides, which can
  be lower than another one while blocks are unsubmitted (`BelowItsParent`; `AboveParentsIff` states
  exactly when);
- the engine rejects conflicting transactions after an acceptance (`pkg/consensus/adapter.go:278-299`), but
  that loop never finds one that is not rejected, so none ever is (`StuckRound`);
- bit ranges that start at -7 to -1 are compared without the first byte (`default/ids/bits.go:30-42`).

## Model

| member | source | states |
|---|---|---|
| `TrackerModel.GossipableMeans` | default/network/ip_tracker.go:84-106 | after any run of events, a node is gossipable on a subnet iff it is a validator there now (added, and not removed since) or was manually gossiped there |
| `TrackerModel.WantedMeans` | default/network/ip_tracker.go:266-276 | a connection to a node is wanted iff, by the events of the run, it was manually tracked, or manually gossiped on a followed subnet, or is now a validator of one (the primary network or a subnet this node syncs) |
| `TrackerModel.RunConnected` | default/network/ip_tracker.go:344-408 | a node is connected with some subnets and address iff its last connect event said so and no disconnect followed |
| `TrackerModel.LatestWasOffered` | default/network/ip_tracker.go:359-382 | the latest address of a node was offered by some event of the run |
| `TrackerModel.LatestIsNewest` | default/network/ip_tracker.go:359-382 | no address offered while its node was tracked, and stayed so, is newer than the latest one |
| `TrackerModel.RunConsistent` | default/network/ip_tracker.go:242-522 | in every run only tracked nodes have a latest address, and a node both tracked and connected has one at least as new as its connection |
| `TrackerModel.ConnectFindsDown` | default/network/ip_tracker.go:342-357 | if between two connections of a node there is always a disconnection, every connect event finds its node disconnected |
| `TrackerModel.AlternatesAppend` | default/network/ip_tracker.go:342-408 | a connection while down and a disconnection while up keep the two taking turns for each node |
| `TrackerModel.ListedButNotConnectedWith` | default/network/ip_tracker.go:128-132 | a run after which a node is listed with a newer address than the one it connected with |
| `GossipSubnet.InverseIffIndexed` | default/network/ip_tracker.go:117-135 | an index is the exact inverse of the gossip array iff it is the map built by scanning it |
| `GossipSubnet.SwapRemove` | default/network/ip_tracker.go:148-167 | moving the last entry into the freed slot keeps the index inverse and removes exactly that node |
| `GossipSubnet.GossipableSubnet.SetGossipableIP` | default/network/ip_tracker.go:137-146 | replaces or appends one entry; read as a map the list gains exactly this entry; the gauge moves in the append branch, by exactly the growth of the list |
| `GossipSubnet.GossipableSubnet.RemoveGossipableIP` | default/network/ip_tracker.go:148-167 | removes one node's entry in place; all other entries stay; the gauge moves down exactly when the list shrinks |
| `GossipSubnet.GossipableSubnet.MarkGossipable` | default/network/ip_tracker.go:450-477 | makes a node gossipable, keeps the manual mark sticky, lists it if it is connected and syncs the subnet; the gauge follows the list |
| `GossipSubnet.GossipableSubnet.UnmarkGossipable` | default/network/ip_tracker.go:498-499 | a node no longer gossipable is also no longer listed; the gauge follows the list |
| `GossipSubnet.GossipableSubnet.GetGossipableIPs` | default/network/ip_tracker.go:172-200 | extends the answer by eligible entries of the subnet, in any order, without repeating a node; stops only when full or exhausted |
| `TrackerMeaning.AddedTrackedMap` | default/network/ip_tracker.go:410-448 | the tracked map of the model after a validator, manual track or manual gossip event is the old one with the entry the code writes |
| `TrackerMeaning.AddedSubnetMap` | default/network/ip_tracker.go:450-477 | likewise for the subnet map |
| `TrackerMeaning.ConnectSubnetMap` | default/network/ip_tracker.go:344-357 | listing the latest address in the subnets of the connection gives the model's lists iff the node connects cleanly: it was not connected, or every subnet it was listed in is connected again |
| `TrackerMeaning.DisconnectMaps` | default/network/ip_tracker.go:393-408 | unlisting a node from the subnets of its connection gives the model's lists |
| `TrackerMeaning.RemovedTrackedMap` | default/network/ip_tracker.go:481-522 | after the last reason is gone the entry is deleted, otherwise it loses one subnet |
| `TrackerMeaning.RemovedSubnetMap` | default/network/ip_tracker.go:481-522 | a subnet goes with its last gossipable node |
| `IPTracker.Tracker.constructor` | default/network/ip_tracker.go:43-82 | a new tracker means the empty history |
| `IPTracker.Tracker.ManuallyTrack` | default/network/ip_tracker.go:242-247 | one step of the history model; all ties kept; the filter moves only if the node thereby gets an address, and then as that address demands |
| `IPTracker.Tracker.ManuallyGossip` | default/network/ip_tracker.go:254-264 | one step of the history model; all ties kept; the filter moves only if the node thereby gets an address, and then as that address demands |
| `IPTracker.Tracker.OnValidatorAdded` | default/network/ip_tracker.go:410-416 | one step of the history model; all ties kept; the filter moves only if the node thereby gets an address, and then as that address demands |
| `IPTracker.Tracker.OnValidatorRemoved` | default/network/ip_tracker.go:481-522 | one step of the history model, including sticky manual gossip, and deletion of empty entries and subnets; the filter stays |
| `IPTracker.Tracker.AddIP` | default/network/ip_tracker.go:311-324 | learns a strictly newer address of a tracked node, relists it and brings it to the filter; answers true iff a connection is wanted and no address at least as new was known |
| `IPTracker.Tracker.Connected` | default/network/ip_tracker.go:344-357 | one step of the history model; the ties hold afterwards iff the connection is clean; the filter takes the address iff it is learnt |
| `IPTracker.Tracker.Disconnected` | default/network/ip_tracker.go:393-408 | one step of the history model; an unknown node changes nothing; the filter stays |
| `IPTracker.Tracker.AddTrackableID` | default/network/ip_tracker.go:419-448 | the entry of a node gains a reason; a new entry adopts the address of a current connection, counted in the bloom filter |
| `IPTracker.Tracker.AddGossipableID` | default/network/ip_tracker.go:450-477 | the subnet's lists gain the node; both subnet gauges follow |
| `IPTracker.Tracker.Store` | default/network/ip_tracker.go:450-460 | the gauges of subnets and of gossiped addresses equal the number of subnets and the summed list lengths again, given what the list operation counted |
| `IPTracker.Tracker.LearnIP` | default/network/ip_tracker.go:359-382 | the entry of a tracked node takes a newer address and nothing else changes; each of the five comparison codes exactly, by the timestamps |
| `IPTracker.Tracker.SetGossipableIP` | default/network/ip_tracker.go:384-390 | lists the address in exactly the given subnets where its node is gossipable, in any order of the set |
| `IPTracker.Tracker.RemoveGossipableIP` | default/network/ip_tracker.go:403-407 | unlists the node from exactly the given subnets |
| `IPTracker.Tracker.RemoveGossipableID` | default/network/ip_tracker.go:498-504 | the subnet loses the node, and goes with its last gossipable node; both gauges follow |
| `IPTracker.Tracker.RemoveTrackableID` | default/network/ip_tracker.go:506-521 | the entry loses a reason, and goes with its last one; the gauge follows |
| `IPTracker.Tracker.UpdateMostRecentTrackedIP` | default/network/ip_tracker.go:524-552 | stores the address; a node at its cap leaves the filter alone; below the cap, a filter with room gains exactly this address and one addition, and a full one is made anew of the latest addresses with the new maximum, or stays if that fails |
| `IPTracker.Tracker.ResetBloomFilter` | default/network/ip_tracker.go:576-608 | a successful reset leaves a filter of exactly the latest addresses, one addition counted for each of their nodes and for no other, and the new maximum; a failed one changes nothing |
| `IPTracker.Tracker.ResetBloom` | default/network/ip_tracker.go:557-562 | the same on the locked call: the filter is exactly the latest addresses of the history model, each counted once |
| `IPTracker.Tracker.WantsConnection` | default/network/ip_tracker.go:270-276 | equals the documented three-way condition on the history |
| `IPTracker.Tracker.ShouldVerifyIP` | default/network/ip_tracker.go:282-300 | true iff the node is tracked (or wanted, unless all subnets are followed) and no address at least as new is known |
| `IPTracker.Tracker.GetIP` | default/network/ip_tracker.go:331-340 | the latest address of a node, if any, and whether a connection is then wanted |
| `IPTracker.Tracker.GetGossipableIPs` | default/network/ip_tracker.go:610-650 | at most maxNumIPs distinct nodes, each with its latest address, none the asking peer's own or known to its filter, all from allowed subnets; if fewer come back, every such node is among them |
| `IPTracker.Tracker.GossipListsExact` | default/network/ip_tracker.go:128-167 | a node has an entry iff it is gossipable there, connected and syncing the subnet; the entry is its latest address and the index is the inverse of the array |
| `IPTracker.Replay` | default/network/ip_tracker.go:311-522 | in every run where nodes connect only while down all ties hold at the end; if every reset succeeds no latest address was dropped from the filter; the filter never holds more than its maximum or the number of latest addresses after some event of the run, nor, if no validator was removed, more than its maximum or the current number; with resets sized for what they add it stays within its maximum |
| `IPTracker.Deliver` | default/network/ip_tracker.go:242-552 | one event is one step of the history model, and what it does to the filter: nothing, one more address, or a new filter of the latest addresses |
| `IPTracker.FilterOutgrows` | default/network/ip_tracker.go:524-608 | a run, for every address, after which the filter holds more than its maximum and more than there are latest addresses: a removed validator stays in it until the next reset |
| `IPTracker.TrackerOfNetwork` | default/network/network.go:456-495 | the calls made by any interleaving of the network leave the tracker exact; it holds every peer between its two calls under the address and subnets of that peer, and every connection it is told of or holds was upgraded with that address and those subnets |
| `PeerLifecycle.PeersKept` | default/network/network.go:1069-1128 | every step keeps peers placed in exactly one of connecting and connected, or gone |
| `PeerLifecycle.DialsKept` | default/network/network.go:906-1013 | every step, closing and stopping included, keeps each unstopped dial loop on the current entry of its node, entries unstopped, and connected nodes without an entry |
| `PeerLifecycle.LogsKept` | default/network/network.go:456-495 | every step keeps the calls to tracker and router in step with the peers: the tracker knows exactly the connections between the two calls, by address and subnets, and the router exactly the subnets told |
| `PeerLifecycle.EveryRun` | default/network/network.go:677-749 | these invariants hold after every sequence of steps |
| `PeerLifecycle.Safety` | default/network/network.go:841-880 | in every interleaving: one live peer per node, connecting and connected disjoint, no connected node tracked, one unstopped dial loop per node and it follows the current entry; the tracker hears Connected only for a node that is down and Disconnected only for one that is up, and so does the router; the tracker knows exactly the peers between the calls, each with its own address and subnets, and the router knows every live peer on the primary network and all common subnets |
| `PeerLifecycle.Provenance` | default/network/network.go:476-494 | over every sequence of steps: each peer, and each connection told to the tracker, stems from an upgrade with that address and those subnets; every other call of the tracker was made by some action, and every such action made it |
| `PeerLifecycle.Arrival` | default/network/network.go:456-495 | from any state where a node is free, its upgrade and handshake tell the tracker its address and subnets, then the router the primary network and each common subnet in the order taken, and leave it live |
| `PeerLifecycle.Departure` | default/network/network.go:524-536 | its end is told to the tracker and then to the router, once each, and leaves the node free |
| `PeerLifecycle.LeftIsRedialed` | default/network/network.go:863-880 | a node that had finished its handshake is dialled again by a new loop iff it is still wanted; otherwise nothing dials it; no other node is affected |
| `PeerLifecycle.DroppedIsRedialed` | default/network/network.go:841-861 | a node that had not is dialled again iff it was dialled before and is still wanted, and the loop before is stopped; otherwise nothing dials it |
| `PeerLifecycle.LearntIsDialed` | default/network/network.go:727-749 | a learnt address replaces the one dialled so far iff the node is wanted and not connected |
| `PeerLifecycle.MetIsNotDialed` | default/network/network.go:456-474 | a node that finishes its handshake is no longer dialled |
| `PeerLifecycle.GivenIsDialed` | default/network/network.go:677-697 | an address given by hand is dialled iff the node is neither connected nor dialled already |
| `PeerLifecycle.CheckedIsDialed` | default/network/network.go:921-954 | a dial loop goes on iff its node is wanted and neither connecting nor connected; an unwanted node is no longer dialled by any loop |
| `PeerLifecycle.ClosingStopsDials` | default/network/network.go:1151-1160 | starting to close stops every dial loop |
| `PeerLifecycle.ClosedForGood` | default/network/network.go:1069-1080 | once closing has begun no sequence of steps adds a peer |
| `Genesis.TotalAmount` | default/genesis/genesis.go:470-475 | the sum is the number of locked units and does not overflow when that fits in 64 bits |
| `Genesis.PlaceUnlock` | default/genesis/genesis.go:489-521 | one unlock is laid out as the next run of units, closing each bucket at exactly its share; no subtraction underflows |
| `Genesis.PlaceAllocation` | default/genesis/genesis.go:482-525 | likewise for all unlocks of an allocation |
| `Genesis.PlaceAll` | default/genesis/genesis.go:480-526 | all units laid out in order, every closed bucket a full share |
| `Genesis.SplitAllocations` | default/genesis/genesis.go:469-529 | numSplits buckets if anything is locked, else one; bucket i holds the i-th share of the units in order, the last the rest; initial amounts are cleared |
| `Genesis.AllButLastClosed` | default/genesis/genesis.go:490-510 | with a positive total, every bucket but the last has been closed when the units run out |
| `Genesis.SplitIsFair` | default/genesis/genesis.go:469-529 | all buckets but the last hold total / numSplits, the last exceeds that by less than numSplits |
| `Genesis.SplitConserves` | default/genesis/genesis.go:469-529 | the amount for each (address, eth address, locktime) is the same before and after |
| `Genesis.CoinsCount` | default/genesis/genesis.go:469-529 | counting units agrees with adding amounts |
| `GenesisState.InitialSupply` | default/genesis/config.go:146-162 | the sum of all initial and locked amounts, or an error iff it exceeds 64 bits |
| `GenesisState.XChainHolders` | default/genesis/genesis.go:304-325 | every address holds exactly its initial amounts, the holders sum to all of them, and none is zero |
| `GenesisState.Outputs` | default/genesis/genesis.go:366-375 | the outputs of an allocation carry exactly its locked units, whether or not empty ones are kept |
| `GenesisState.SetAside` | default/genesis/genesis.go:352-376 | every unit is either staked or in a platform output, none twice |
| `GenesisState.StakedCoins` | default/genesis/genesis.go:352-376 | of each coin all units are staked if its address is among the staked funds, and none otherwise |
| `GenesisState.ValidatorStakes` | default/genesis/genesis.go:378-423 | validator i holds exactly the units of bucket i |
| `GenesisState.Stake` | default/genesis/genesis.go:380-423 | a stake for each staker that together hold the staked units, equal but for the last, which is larger by less than the number of stakers; a crash iff there are no stakers, or several and nothing to stake |
| `GenesisState.FromConfig` | default/genesis/genesis.go:294-423 | supply overflow, crash and success each exactly characterised; on success holders, platform outputs and stakes add up to the initial supply, unit for unit and address for address; the stakes hold every locked unit of the staked addresses and the platform outputs every other, coin by coin; the stakes are equal but for the last, which is larger by less than the number of stakers |
| `GenesisState.ValidateInitialStakedFunds` | default/genesis/genesis.go:54-111 | accepts iff the list is nonempty, without repetition, and every address has an allocation |
| `GenesisState.ValidateConfig` | default/genesis/genesis.go:115-203 | accepts a configuration iff all eleven conditions, spelled out, hold, and otherwise returns the first that fails, in the order of the checks; the product of offset and stakers wraps |
| `GenesisState.ValidatedMayCrash` | default/genesis/genesis.go:115-203 | for every setting whose times and chain genesis pass the checks with two stakers, a configuration that passes all of them and has no staked locked funds, so that building it crashes |
| `Router.ApiRouter.ForceAddRouter` | default/api/server/router.go:81-110 | terminates on every alias graph; adds the handler only below the base, closes the endpoint under aliases again, and errs if it meets a base that has it |
| `Router.ApiRouter.ForwardToAliases` | default/api/server/router.go:101-109 | all aliases of the base are served although errors in one branch do not stop the others |
| `Router.ApiRouter.AddRouter` | default/api/server/router.go:64-79 | the endpoint is present at everything the base reaches; errs iff the base is reserved, a base is met twice, or the endpoint is already below |
| `Router.ApiRouter.AddAlias` | default/api/server/router.go:112-141 | a refused call changes nothing; otherwise each endpoint of the base reaches all new aliases, with the exact error condition; without errors so far an alias serves the handler of its base |
| `Router.ForwardedAlongPath` | default/api/server/router.go:101-108 | closure at each base gives presence along every alias path |
| `Router.UniquePath` | default/api/server/router.go:118-126 | when each alias has one base, a base is reached along one path only |
| `Router.AgreeKept` | default/api/server/router.go:101-108 | adding one handler to all new places keeps aliases serving their base's handler |
| `Health.Worker.constructor` | default/api/health/worker.go:54-75 | gauges are exact at the start |
| `Health.Worker.RegisterCheck` | default/api/health/worker.go:77-125 | both errors exactly; if the gauges equalled the full recount before, they do afterwards iff the registration is countable: an application check meets no failing application check or adds no new tag, any other has no repeated tag |
| `Health.MiscountedNewTag` | default/api/health/worker.go:277-294 | from a new worker, two registrations after which a gauge is wrong: an application check with a new tag, while another application check fails |
| `Health.MiscountedTwice` | default/api/health/worker.go:296-311 | from a new worker, one registration after which a gauge is wrong: a plain check that names a tag twice |
| `Health.Worker.AddToTags` | default/api/health/worker.go:94-103 | the check joins exactly its tags and the tag of all checks |
| `Health.Worker.UpdateMetrics` | default/api/health/worker.go:276-322 | a change moves the gauge of every registered tag by one for an application check, else the gauge of each own tag once per mention and the gauge of all checks; a first-time tag also takes over the failing application checks |
| `Health.RegisterPlain` | default/api/health/worker.go:295-320 | registering a plain check keeps every gauge equal to the recount iff no tag is repeated |
| `Health.RegisterApplication` | default/api/health/worker.go:277-294 | the same for application checks, with its own exact condition |
| `Health.Worker.RunCheck` | default/api/health/worker.go:220-269 | keeps gauges that equal the recount equal to it; a failing report extends the run of failures and keeps its start, a passing one ends it |
| `Health.ReportsMean` | default/api/health/worker.go:236-249 | after any reports of a check, the contiguous failures are the length of the failing run at the end, and the time of first failure is that of the first report of that run |
| `Health.RunChecks` | default/api/health/worker.go:201-218 | checks reporting in any order leave each result to the reports of its own check, and exact gauges exact |
| `Health.RunExact` | default/api/health/worker.go:250-267 | moving the check's own gauges on a change, or all of them for an application check, is the recount |
| `Health.Worker.Results` | default/api/health/worker.go:143-170 | exactly the registered checks that carry one of the tags, with all of them for no tag or the tag of all, and every application check; healthy iff none of these fails; for one registered tag, and for no tag at all, healthy iff the gauge is zero |
| `Health.CoveredIff` | default/api/health/worker.go:147-160 | a query covers a check iff it is registered and carries one of the tags or is an application check, or the query names no tag or the tag of all |
| `Index.Index.constructor` | default/indexer/index.go:62-96 | opening the database of any earlier run recovers its log |
| `Index.Index.Accept` | default/indexer/index.go:111-161 | appends a new container, ignores a known one, and whatever call fails leaves the tables of the old or the new log; succeeds iff no call fails or a known container can be read; the tables stay right iff the counter does not wrap |
| `Index.Index.Store` | default/indexer/index.go:134-160 | the database changes at the commit or not at all |
| `Index.Append` | default/indexer/index.go:134-160 | one committed acceptance extends both tables by one entry, iff the next index fits in 64 bits |
| `Index.LogDetermined` | default/indexer/index.go:38-57 | the tables determine the log, and no identifier is in it twice |
| `Index.Index.GetContainerByIndex` | default/indexer/index.go:167-199 | the container at the index, or an error iff there is none |
| `Index.Index.GetIndex` | default/indexer/index.go:240-245 | the index of a container, or not found iff it was never indexed |
| `Index.Index.GetContainerByID` | default/indexer/index.go:247-257 | the container with the identifier, or not found iff it was never indexed |
| `Index.Index.GetLastAccepted` | default/indexer/index.go:261-270 | the last container of the log, or an error iff it is empty |
| `Index.Index.GetContainerRange` | default/indexer/index.go:205-237 | the requested slice clipped at the last index, element by element, iff the end of the request fits in 64 bits; otherwise blank containers; each error exactly |
| `Index.RangeSize` | default/indexer/index.go:221-229 | the signed size of the result is the length of the slice, or the full request when the end wraps |
| `Index.IndexFollowsChain` | default/indexer/index.go:41-42 | beside a VM that redoes what a crash undid, after every run of accepts, faults, commits and restarts the log is the chain in its order, missing nothing committed and at most one ahead |
| `Index.Replay` | default/indexer/index.go:62-161 | the same runs on real objects: opened, failing, and opened again on the tables that survived, the index always holds exactly that log |
| `Indexer.Indexer.NewIndexer` | default/indexer/indexer.go:69-91 | a run starts on the flags of the runs before, with its configuration and nothing indexed, and does not start if the database fails; a write that failed may have been applied |
| `Indexer.Indexer.RegisterChain` | default/indexer/indexer.go:132-307 | a call at a closed indexer, of another subnet or of a chain already indexed changes nothing; any other leaves one entry that tells whether an index exists and whether the indexer closed, and creates vertex and transaction indices exactly for a DAG VM up to the call that fails; no other chain enters or leaves an index or a flag; no run that disallows incomplete indices creates an index for a chain that ran unindexed before, or lets an indexed chain go on unindexed, and a chain is refused only for such a cause; the history and the failing calls decide the outcome |
| `Indexer.Indexer.MarkIncomplete` | default/indexer/indexer.go:203-217 | a chain that goes on unindexed is flagged, or the indexer closes |
| `Indexer.Indexer.Create` | default/indexer/indexer.go:232-306 | which of the three indices exist afterwards, by the kind of VM and the call that fails, and when the indexer closes |
| `Indexer.RegisteredKeeps` | default/indexer/indexer.go:158-260 | every registration keeps the flags a record of the history and the history free of indices against the policy |
| `Indexer.RegisteredTells` | default/indexer/indexer.go:136-156 | a registration that is not considered changes nothing; every other leaves one entry that tells what became of it |
| `Indexer.RegisteredDecides` | default/indexer/indexer.go:188-230 | if no registration of the chain broke before, the outcome follows from the history and the failing calls alone, so the has-run flag and the indexed flag add nothing once a chain is incomplete |
| `Indexer.RegisteredCreates` | default/indexer/indexer.go:248-298 | a chain has a vertex index iff it has a block index, its VM is a DAG VM and that call did not fail, and a transaction index iff in addition its own call did not |
| `Indexer.RegisteredElsewhere` | default/indexer/indexer.go:136-156 | a registration touches no other chain, and none at all if it is not considered |
| `Indexer.PolicyHolds` | default/indexer/indexer.go:69-307 | over any sequence of node runs on one database, with any registrations, closes and faults, an index created in a run that disallows incomplete ones belongs to a chain that never before registered at an open indexer and went on unindexed; no chain that was indexed goes on unindexed in such a run; a chain is refused only in such a run and after it was indexed, ran unindexed or broke; and the flags record what happened |
| `Indexer.Replay` | default/indexer/indexer.go:69-307 | the same on real objects: indexers started one after the other on the surviving flags end with exactly the flags and history of the steps |
| `Indexer.OneRun` | default/indexer/indexer.go:132-387 | the calls of one run leave the indexer in exactly the state of the steps, on top of the history before |
| `Vertices.InsertAllMeans` | pkg/consensus/dag.go:157-163 | what a sequence of vertices leaves stored, when an identifier determines a vertex |
| `Vertices.OrderDoesNotMatter` | pkg/consensus/dag.go:151-196 | the stored vertices do not depend on order or repetition |
| `Dag.ParallelDag.AddVertex` | pkg/consensus/dag.go:151-196 | edges, reverse edges and frontier stay those of the stored vertices in any order of arrival; a right frontier stays right iff Parents succeeds or the vertex already has a child |
| `Dag.ParallelDag.Link` | pkg/consensus/dag.go:171-185 | the child is added to each parent as often as it names it, and the parents leave the frontier |
| `Dag.ParallelDag.GetFrontier` | pkg/consensus/dag.go:211-223 | the frontier vertices, each once |
| `Dag.FrontierExact` | pkg/consensus/dag.go:165-193 | the kept frontier is the set of childless vertices iff every vertex whose parents could not be read has a child |
| `Dag.SameGraph` | pkg/consensus/dag.go:122-131 | the stored vertices determine edges, and children up to order |
| `PrioritySort.SortVerticesByPriority` | pkg/consensus/adapter.go:354-363 | in place, descending priority, a permutation |
| `Engine.ParallelEngine.constructor` | pkg/consensus/adapter.go:76-91 | an empty engine is safe; the worker count defaults to 4 |
| `Engine.ParallelEngine.ProcessVertex` | pkg/consensus/adapter.go:94-162 | stores a new vertex and exactly its claims on inputs, up to the first failing call; an error iff a call of a new vertex fails; an honest vertex keeps accepted transactions apart, and any vertex with stable inputs keeps one of two accepted spenders unclaimed |
| `Engine.ParallelEngine.AddTxs` | pkg/consensus/adapter.go:134-159 | claims for exactly the undecided transactions before the first that fails to give its inputs |
| `Engine.ParallelEngine.Work` | pkg/consensus/adapter.go:179-210 | with at most maxWorkers at work and any of them next, every vertex is processed once |
| `Engine.ParallelEngine.BatchProcessVertices` | pkg/consensus/adapter.go:165-212 | for every schedule, worker count and priority order the outcome is that of the supported vertices one by one: every one of the list is stored, nothing else is, the claims are those of the new ones, and an error is returned iff one of those fails |
| `Engine.SupportedMeans` | pkg/consensus/adapter.go:167-175 | the batch holds exactly the vertices of the list that support parallel processing |
| `EngineModel.AnyOrder` | pkg/consensus/adapter.go:94-162 | the effect of processing vertices does not depend on their order |
| `EngineModel.SameEffect` | pkg/consensus/adapter.go:165-212 | two runs over the same vertices end in equal maps and the same error |
| `EngineModel.ProcessedMore` | pkg/consensus/adapter.go:98-106 | a vertex met again adds nothing |
| `Engine.ParallelEngine.GetFrontier` | pkg/consensus/adapter.go:333-351 | exactly the childless stored vertices, each once |
| `Engine.FrontiersAgree` | pkg/consensus/adapter.go:333-351 | the recomputed frontier is the one the DAG keeps iff every unreadable vertex has a child |
| `Engine.ParallelEngine.CanAccept` | pkg/consensus/adapter.go:246-269 | true iff every other claim on each input is rejected |
| `Engine.ParallelEngine.RejectConflicts` | pkg/consensus/adapter.go:278-299 | after the acceptance test this loop rejects nothing that was not rejected |
| `Engine.ParallelEngine.DecideTx` | pkg/consensus/adapter.go:235-301 | accepts an undecided transaction iff all other claims on its inputs are rejected; rejects nothing new |
| `Engine.ParallelEngine.DecideRound` | pkg/consensus/adapter.go:219-323 | the accepted set names no order of maps or frontier: without an error it gains exactly the undecided transactions of childless vertices whose inputs nobody else claims; the rejected set stays empty in every run; accepted transactions stay apart among honest vertices, and in general iff there is no clash; claimed rivals stay undecided; a vertex is accepted iff all it holds is decided |
| `Engine.TakenMeans` | pkg/consensus/adapter.go:231-276 | what a round accepts, read off vertices, parents and claims alone |
| `Decisions.SecureProcess` | pkg/consensus/adapter.go:134-159 | an honest vertex claims every input of its undecided transactions |
| `Decisions.SecureRound` | pkg/consensus/adapter.go:246-301 | accepting any acceptable transactions leaves no two accepted ones with a common input |
| `Decisions.AcceptedHere` | pkg/consensus/adapter.go:303-322 | with stable inputs a transaction is decided at every vertex that holds it |
| `Decisions.ApartIffNoClash` | pkg/consensus/adapter.go:219-301 | for stable inputs and whatever failed to verify, an error-free round keeps accepted transactions without a common input iff no transaction it can accept shares an input with another one, accepted or acceptable |
| `Decisions.ClashIsUnclaimed` | pkg/consensus/adapter.go:246-269 | the cause of a clash: the other spender has no claim on the shared input |
| `Decisions.SecureNoClash` | pkg/consensus/adapter.go:134-159 | among honest vertices there is never such a clash |
| `Decisions.UnclaimedProcess` | pkg/consensus/adapter.go:134-159 | processing any vertex keeps this: of two accepted transactions with a common input one was claimed on it by no verifying vertex |
| `Decisions.UnclaimedRound` | pkg/consensus/adapter.go:235-301 | every round keeps it as well |
| `Decisions.StuckProcess` | pkg/consensus/adapter.go:152-158 | two undecided transactions that are both claimed on a common input stay so whatever is processed |
| `Decisions.StuckRound` | pkg/consensus/adapter.go:246-269 | and no round ever decides either of them, since nothing is ever rejected |
| `Engine.UnverifiedConflict` | pkg/consensus/adapter.go:119-126 | a clash that happens: vertices that fail verification stay stored without claims, and one round accepts two of their transactions that spend the same input |
| `Bits.EqualSubset` | default/ids/bits.go:21-62 | true iff every bit from start to stop agrees; a nonempty range past the last bit is never equal; a start from -7 to -1 skips the whole first byte |
| `Bits.FirstDifferenceSubset` | default/ids/bits.go:67-128 | the least differing bit; none iff all bits agree or the range passes the last bit; the same skip for a start from -7 to -1 |
| `Bits.Interior` | default/ids/bits.go:107-115 | the first difference among whole bytes |
| `Bits.MaskedRange` | default/ids/bits.go:38-61 | comparing under a mask compares the bits under it, and the lowest set bit of the XOR is the first difference |
| `Bits.Unequal` | default/ids/id.go:140-158 | bytes are equal iff all bits agree |
| `Bits.AgreeBytes` | default/ids/bits.go:33-36 | whole bytes agree bit for bit iff the slices are equal |
| `BlockBytes.GenerateBytes` | pkg/blockchain/block.go:132-157 | the buffer holds height, parent count, parents and transaction count, each where a reader finds it, and nothing else |
| `BlockBytes.MaterialLayout` | pkg/blockchain/block.go:132-157 | reading the bytes back, big-endian and at the fixed offsets, gives height, number of parents, each parent and number of transactions |
| `BlockBytes.MaterialInjective` | pkg/blockchain/block.go:132-157 | equal bytes mean equal height, parents and number of transactions |
| `Blockchain.Blockchain.constructor` | pkg/blockchain/blockchain.go:33-62 | genesis is accepted, latest and at height 0 |
| `Blockchain.Blockchain.AddTransaction` | pkg/blockchain/blockchain.go:65-84 | a transaction with sender, recipient and amount that is not pooled yet enters the pool; any other is refused, with the first of the three reasons that applies |
| `Blockchain.Blockchain.Verify` | pkg/blockchain/transaction.go:105-117 | the two reasons a transaction is invalid, in order |
| `Blockchain.Blockchain.CreateBlock` | pkg/blockchain/blockchain.go:87-145 | an error iff a parent is missing; else a block with a new identifier and the next height, its transactions moved out of the pool, none lost, at most as many as the limit, fewer only if the pool is then empty; a limit of 0 still takes one |
| `Blockchain.Blockchain.Select` | pkg/blockchain/blockchain.go:107-117 | moves transactions out of the pool into the list, none lost or doubled, as many as the limit allows and at least one if there is any |
| `Blockchain.Blockchain.NextHeight` | pkg/blockchain/blockchain.go:98-105 | one more than the last parent at or above the current height, else than the current height; with everything submitted that is the number of blocks |
| `Blockchain.AboveParentsIff` | pkg/blockchain/blockchain.go:98-105 | the new block is above all its parents iff none is higher than the last one at or above the current height |
| `Blockchain.BelowItsParent` | pkg/blockchain/blockchain.go:98-105 | three creations without a submission, the last of which gets height 1 under a parent of height 2 |
| `Blockchain.Blockchain.SubmitBlock` | pkg/blockchain/blockchain.go:148-174 | the latest blocks are again exactly the childless ones and the height is the block's |
| `Blockchain.Blockchain.Snapshot` | pkg/blockchain/blockchain.go:178-183 | exactly the blocks pending now |
| `Blockchain.Blockchain.VerifyBlock` | pkg/blockchain/block.go:111-120 | true iff every transaction verifies |
| `Blockchain.Blockchain.Apply` | pkg/blockchain/blockchain.go:229-249 | moves exactly the passed blocks from pending to accepted, whatever happened since the snapshot; the two still partition all blocks |
| `Blockchain.Blockchain.ProcessPendingBlocks` | pkg/blockchain/blockchain.go:177-252 | uninterrupted, every block ends up accepted |
| `Blockchain.Blockchain.GetTransaction` | pkg/blockchain/blockchain.go:284-303 | finds every transaction ever added, and only those |
| `Blockchain.Blockchain.GetBlocksByHeight` | pkg/blockchain/blockchain.go:313-322 | the one block of that height, or none |
| `Blockchain.ParentsAreLower` | pkg/blockchain/blockchain.go:98-105 | heights strictly increase along parent edges |
| `Blockchain.FreshId` | pkg/blockchain/block.go:40-50 | without a hash collision the next block's identifier is new |
| `Blockchain.CreatedTwice` | pkg/blockchain/block.go:132-157 | of two blocks created at one height the second replaces the first in the store, unless their parents or numbers of transactions differ |
| `Blockchain.TipsAfter` | pkg/blockchain/blockchain.go:158-165 | submitting a new block makes it a tip in place of its parents and changes no other |

## Left out

- Bloom hashing, random sampling and SHA-256: a filter is the multiset of added gossip identifiers, a sample an arbitrary order, a hash a function that does not collide on the blocks at hand.
- Update in place of shared objects in the tracker: tracked nodes and gossipable subnets are values stored back into their maps, not objects reached through pointers, and array entries are a sequence.
- Read errors of the index lookups and of the block store; the write and read faults of acceptance, registration and start are modelled.
- Timing: dial delays, backoff, ticker loops, contexts, uptime, timestamps of blocks.
- The network's message handling, throttling, TLS upgrade and peer sampling; a peer is its identity, claimed address, subnets and phase.
- GenesisState.XChainHolders: does not model the sort order of the holders, the memo and the address formatting, nor the encoding of the genesis transactions.
- Genesis.SplitAllocations: requires a positive number of splits and a total below 2^64, which its one caller has checked; no splits divide by zero, which `Stake` models, and a larger total would wrap.
- The mux behind the API router, the nil route it never returns, and read-only access to routes.
- Health check details, durations and messages, and the memoising wrapper for monotonic checks, which would only add easy members.
- Closing of databases and deregistration of acceptors in the indexer; a crash inside a registration is a failed write followed by the close.
- The outer loop of transaction decisions: the frontier is recomputed from maps a round does not change, so single rounds are modelled; the status of vertices and transactions beyond accepted and rejected sets.
- Frontier processing of the DAG, which takes a lock it already holds, and status updates.
- Block status, JSON fields and the node's HTTP layer; the error path of block creation, which no input reaches.
- Aliaser, version comparison, upgrade order, byte pool, batch operations, acceptor groups, worker pool, message builders, node and chain wiring: easy or foreign.
- IPTracker.Replay: the maximum of a new filter is a parameter, which the source estimates in floating point; the filter stays within its maximum if every reset allows for the addresses it adds. Without that, and once a validator left, it can hold more than its maximum and more than there are latest addresses (`FilterOutgrows`); the bounds that hold then are stated.
- PeerLifecycle.Safety: assumes the synced subnets do not include the primary network, which the router is told about separately.
- IPTracker.Tracker.Connected: when the node was already connected and leaves a subnet it is listed in, the stale entry stays; the contract says exactly when, and the network never does it.
- Bits.EqualSubset: start is above -8; a start of -8 or less indexes outside the identifier unless the call returns before.
- Bits.FirstDifferenceSubset: start is above -8, for the same reason.
- Blockchain.Blockchain.CreateBlock: requires the previous block to be submitted, because identifiers cover only height, parents and number of transactions (`CreatedTwice`); also heights below 2^64 and a limit that is not negative, since a negative one panics.
- Blockchain.Blockchain.SubmitBlock: takes the block just created; a block from elsewhere could repeat an identifier.
- Index.Index.Accept: an error is final, as documented, until the index is opened again.
- Engine.ParallelEngine.BatchProcessVertices: requires an identifier to determine its vertex, as a hash of its bytes does.
