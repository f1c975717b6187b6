# Control plane of a replicated storage cluster

simplyblock keeps each logical volume store (lvstore) on a pair of nodes: a primary that leads it and a
secondary that can take over. A control plane, sequential code over a key-value store of whole records,
decides who is paired with whom, moves leadership between the two nodes of a pair, builds and takes back
the block-device stacks, and keeps every node's cluster map in step with the database. This project models
that control plane and proves what its steps keep.

The model has five parts.

1. **Pairing** (`Pairing`, `LvstoreRecords`, `ClusterOps`, `ClusterDb`, `PairingInvariant`,
   `ExpansionInvariant`, `PairingRuns`, `PairingLoss`, `PairingRing`, `RingWalk`, `PairingGrowth`,
   `PairingLimits`, `PairingOutcomes`, `LvstoreOutcomes`, `ClusterEnds`, `ClusterReady`, `ExpansionOutcomes`).
   The database is a map of whole records: a read is a copy, a write replaces the record, so a stale copy
   written back can lose an update.
   `LvstoreRecords` has every record that creating and recreating an lvstore writes: the node's own, its
   partner's, those of the primaries it serves. `ClusterDb` is the imperative form; its methods are proved
   equal to the functions of `Pairing`, `LvstoreRecords` and `ClusterOps`, and the invariants and the global
   results are proved about those. Results: over all runs of activations, expansions, joins and status changes
   the two pointers of a pair stay mutually inverse, exactly unless an expansion overtakes a node; a fresh
   cluster is paired in one single ring; a complete cluster refuses one new node and pairs two or more among
   themselves; an activation succeeds exactly under a condition on the records and on how each lvstore goes,
   and what it then leaves is noted as ready.
2. **Hand-over** (`Fabric`, `Control`, `Recreate`, `Restoration`, `Silencing`, `Suspend`, `SuspendLaws`, `RoundTrip`). An
   operation is the list of commands it issues; between any two commands the environment may act. The
   environment rule is an assumption and is stated in `Fabric.Enabled`: a node takes leadership only with an
   open path and only while no other node leads the lvstore. Path states are the ANA states of section 8.20
   of the NVM Express Base Specification, revision 1.4. Every result quantifies over all interleavings: what
   never happens, and what is the case once a call has issued everything.
3. **Stack and journals** (`BdevStack`, `StackLaws`, `StackContents`, `Lvstore`, `Journals`, `JournalNames`,
   `JournalViews`, `JournalOutcomes`).
   Rollback in exact reverse, base bdevs that never vanish under a bdev, a greedy journal choice that no
   other choice beats, and two lists of names for the same journals.
4. **Cluster map** (`ClusterMap`, `MapLaws`, `MapCheck`, `MapShows`). The full map, the events that update it one status
   at a time, and the check of a map against the database. Folding events is recomputing the map.
5. **Identities and devices** (`Labels`, `StorageIds`, `StorageIdLaws`, `Devices`, `DeviceLaws`, `DeviceOutcomes`). Labels,
   storage IDs, the matching of records with discovered devices on restart, and the life of a device status.

`Records` holds the statuses all parts share. Each part has its own record type, with the fields that part of
the program reads; equality of records is equality of ids, as `simplyblock_core/models/base_model.py:176-177`
defines it.

What the proofs bring to light about the program:

- A recovery failure in `recreate_lvstore` leaves the secondary's port blocked: when the call ends nobody leads
  the lvstore, and nobody comes to lead it until something outside the call opens the port again
  (`Recreate.RaisedLeavesNobody`).
- A secondary that is not online is never demoted. The promotion is then safe exactly if it is quiet: it
  does not lead and has no accessible listener, nor one on its way (`Recreate.UnfencedSafeIff`).
- The greedy scan can fail although a pairing exists (`PairingLimits.GreedyMissesPairing`).
- `cluster_expand` writes a record it read before the loop if that node already has a secondary. It loses
  the node's back pointer exactly if an earlier round has chosen the node meanwhile, which can be told from
  the records before the call (`ExpansionInvariant.ExpansionKeepsIff`), and a run from the empty cluster in
  which everything succeeds gets there (`PairingLoss.RunLosesUpdate`).
- A restart held back by an unreachable secondary overwrites its own mark of suspension if it stores a new
  hublvol (`LvstoreRecords.SuspensionIsNotedIff`).
- `recreate_lvstore` reports success although the rebuilding it ends with stopped on the way: the primary
  whose stack failed stays in creation, and an activation goes on to make the cluster active
  (`ClusterReady.StoppedRebuildIsHidden`).
- `resume_storage_node` without a secondary record gets no further than the node's own listeners: its
  variable for the secondary is unbound (`Suspend.Operator.ResumeStorageNode`).
- A removed journal device comes back online by suspension and resumption (`DeviceLaws.SuspendThenResume`).
- The secondary's journal can be chosen although its node is not online; then, and only then, the two sides
  name different journals (`JournalViews.ListsDifferIff`).
- A map failure during stack creation keeps what was created (`StackLaws.FailureRestoresIff`), and a failure
  on the secondary keeps the primary's stack (`Lvstore.CreateLvstore`).
- A preparation with partitions numbers those it finds now and not those handed in
  (`StorageIdLaws.PartitionsNumberedIff`), and it keeps storage IDs unique exactly if no device brings an ID
  for several partitions (`StorageIdLaws.PartitionsUniqueIff`).
- That a journal's stack fails on restart is not noted in the record (`Devices.Node.Restart`).

## Model

| member | source | states |
|---|---|---|
| Pairing.ChosenMeans | simplyblock_core/storage_node_ops.py:3300-3324 | whom the scan may choose: another node, and with more than two nodes one that is online, on another host, and dedicated or free; nobody exactly when there is no such node |
| Pairing.FirstFreeMeans | simplyblock_core/storage_node_ops.py:3310-3322 | the early return gives the first free reachable node behind the current one, or there is none |
| Pairing.PairStepAgrees | simplyblock_core/cluster_ops.py:521-543 | deciding by the copies read before the loop is deciding by the stored records, as long as each node's own pairing comes from its own round |
| PairingOutcomes.PairingMeans | simplyblock_core/cluster_ops.py:520-543 | if the pairing gets through, every node that is not dedicated has a stored secondary, the one it had if it had one, which points at a node that has it, whatever the pointers were before; nothing but pointers changes |
| PairingOutcomes.PairingStops | simplyblock_core/cluster_ops.py:524-535 | a round ends the loop exactly if its node is unpaired with nobody online on another host to serve it, or paired with a node that has no record |
| ClusterDb.Database.GetSecondaryNodes | simplyblock_core/storage_node_ops.py:3300-3324 | the loop with its early return yields the candidates of the specification, in creation order |
| ClusterDb.Database.PairOne | simplyblock_core/cluster_ops.py:523-543 | one round of the pairing loop as whole-record reads and writes |
| ClusterDb.Database.PairNodes | simplyblock_core/cluster_ops.py:520-543 | the pairing loop over copies read before it leaves the table PairFrom computes on current records |
| ClusterDb.Database.CreateLvstore | simplyblock_core/storage_node_ops.py:3342-3472 | every record create_lvstore writes, in order: the copy with its journals, with its lvstore named, the partner's fresh copy, the own copy again, the partner's copy again; and how far it gets, raising before or after each |
| ClusterDb.Database.RecreateLvstore | simplyblock_core/storage_node_ops.py:3001-3194 | every record recreate_lvstore writes: the copy, the journals, suspension or offline, the partner's status before and after, the hublvol |
| ClusterDb.Database.RecreateLvstoreOnSec | simplyblock_core/storage_node_ops.py:2925-2998 | the records of the primaries a secondary serves, through the copies the scan gave |
| LvstoreRecords.CreationWritesCopy | simplyblock_core/storage_node_ops.py:3342-3472 | whatever create_lvstore writes and however it ends, pointers and statuses are those of one write of the caller's copy: the two writes of the partner's record lose nothing |
| LvstoreRecords.RecreationKeepsPairs | simplyblock_core/storage_node_ops.py:3001-3194 | recreate_lvstore through a copy with current pointers changes no pair, the writes of the partner's record and of served primaries included |
| LvstoreRecords.SuspensionIsNotedIff | simplyblock_core/storage_node_ops.py:3036-3039 | a restart held back by an unreachable secondary leaves the node noted as suspended if and only if no new hublvol is stored afterwards through the call's copy |
| LvstoreOutcomes.CreatedRecords | simplyblock_core/storage_node_ops.py:3342-3472 | the records after create_lvstore and the note of its caller, for every point it may get to: the writes come to one write of the node and one of its partner |
| LvstoreOutcomes.CreatedResult | simplyblock_core/storage_node_ops.py:3423-3472 | when create_lvstore returns true and when false |
| LvstoreOutcomes.RecreatedRecords | simplyblock_core/storage_node_ops.py:3001-3194 | the records and the result of recreate_lvstore for every point it may get to, up to the rebuilding it ends with |
| LvstoreOutcomes.RebuiltRecords | simplyblock_core/storage_node_ops.py:2925-2998 | a rebuilding makes its primaries ready in creation order until a stack fails; that one stays in creation and the later ones as they were; it succeeds exactly if there are no more than it can rebuild |
| ClusterDb.Database.BuildOne | simplyblock_core/cluster_ops.py:546-573 | one round of the lvstore loop: outcome and records, failure, exception and force included |
| ClusterDb.Database.RebuildSecondaries | simplyblock_core/cluster_ops.py:575-598 | the loop over dedicated secondaries, with the records of the primaries they serve |
| ClusterDb.Database.ClusterActivate | simplyblock_core/cluster_ops.py:485-608 | new records, cluster status and outcome: refused exactly on an active cluster without force; active after success, in activation after an exception nobody catches, and as it was after every failure the code handles |
| ClusterEnds.ActivationEnds | simplyblock_core/cluster_ops.py:485-608 | outcome and status of an activation in the four cases, and whose records it leaves in each: untouched, as the pairing or as the building left them |
| ClusterEnds.ActivationSucceedsIff | simplyblock_core/cluster_ops.py:485-608 | success, told from the records and from how each lvstore goes: every online node that is not dedicated has its lvstore built, or reported failed to a forced call, and no dedicated secondary stops in a call that is not forced |
| ClusterEnds.FirstLoopStops | simplyblock_core/cluster_ops.py:546-573 | otherwise the loop ends at the first node that does not go on: a crash if its lvstore was being made and an exception came out, else the old status |
| ClusterReady.ActivatedAreReady | simplyblock_core/cluster_ops.py:546-608 | after success all these nodes have an lvstore, noted as ready where building it went well, if no rebuilding stops on the way |
| ClusterReady.StoppedRebuildIsHidden | simplyblock_core/storage_node_ops.py:3181-3194 | a rebuilding at the end of recreate_lvstore that stops is not reported: the call succeeds and a primary stays in creation |
| ClusterDb.Database.ExpandOne | simplyblock_core/cluster_ops.py:626-656 | one round of the expansion, with the copy that is not re-read when a secondary exists |
| ClusterOps.ExpandStepIs | simplyblock_core/cluster_ops.py:626-656 | for hosts, kinds, pointers and statuses a round of an expansion is a pairing, one write of the copy read before the loop, or nothing |
| ClusterDb.Database.ClusterExpand | simplyblock_core/cluster_ops.py:611-659 | the same for an expansion: refused exactly outside four statuses; active, in expansion, or as it was |
| ClusterEnds.ExpansionEnds | simplyblock_core/cluster_ops.py:611-659 | outcome and status of an expansion in the four cases |
| ExpansionOutcomes.ExpandedAreReady | simplyblock_core/cluster_ops.py:626-659 | after success every node that was online without an lvstore has one, noted as ready, and with high availability a secondary, its own one if it had one |
| ExpansionOutcomes.ExpansionSucceedsIff | simplyblock_core/cluster_ops.py:611-659 | where nobody needs pairing it succeeds exactly if it is not refused and all those lvstores are created |
| ClusterDb.Database.PrimariesOf | simplyblock_core/db_controller.py:294-300 | the scan by secondary id, in creation order |
| PairingInvariant.SecondariesDiffer | simplyblock_core/cluster_ops.py:537-542 | with inverse pointers no two primaries share a non-dedicated secondary |
| PairingInvariant.ScanAgrees | simplyblock_core/db_controller.py:294-300 | the scan by secondary id finds at most the node the back pointer names |
| PairingInvariant.ChosenIsIdle | simplyblock_core/storage_node_ops.py:3305-3322 | a chosen node that is not dedicated serves nobody yet, also in the two-node case that does not look |
| PairingInvariant.ActivationKeeps | simplyblock_core/cluster_ops.py:520-608 | an activation, however it ends, keeps the pointers inverse, and pairs on different hosts unless there are exactly two nodes |
| ExpansionInvariant.OldCopyKeepsIff | simplyblock_core/cluster_ops.py:645-650 | writing an old copy with current secondary keeps the pointers inverse if and only if its back pointer is current or the node dedicated |
| ExpansionInvariant.PickIsChosen | simplyblock_core/storage_node_ops.py:3300-3324 | whom a round of an expansion chooses is told from the records before the loop and the nodes chosen so far |
| ExpansionInvariant.ExpandKeepsIff | simplyblock_core/cluster_ops.py:626-656 | from any round on, the expansion keeps the pointers inverse if and only if no round writes an old copy of a node that an earlier one has chosen |
| ExpansionInvariant.ExpansionKeepsIff | simplyblock_core/cluster_ops.py:611-659 | the same for the whole call: a condition on the records before it, the creation order and how the creations go |
| ExpansionInvariant.ExpandKeepsApart | simplyblock_core/cluster_ops.py:626-656 | pairs stay on different hosts in any expansion of a cluster that does not have exactly two nodes |
| PairingRuns.DoKeepsIff | simplyblock_core/cluster_ops.py:485-659 | a join, a status change or an activation always keeps the invariant, an expansion if and only if it is clear |
| PairingRuns.RunsKeepPairing | simplyblock_core/cluster_ops.py:485-659 | over every run whose expansions are clear the pointers stay mutually inverse, under all whole-record overwrites |
| PairingRuns.UnclearLoses | simplyblock_core/cluster_ops.py:625-659 | an expansion that is not clear always loses a pointer |
| PairingRuns.SettledIsClear | simplyblock_core/cluster_ops.py:630-650 | it is clear if no node that serves nobody has a secondary but no lvstore |
| PairingLoss.RunLosesUpdate | simplyblock_core/cluster_ops.py:485-659 | a run from the empty cluster, every step of which succeeds, in which an expansion loses a back pointer |
| PairingRing.FreshClusterFormsRing | simplyblock_core/cluster_ops.py:520-543 | n >= 2 unpaired online nodes on distinct hosts: pairing succeeds and node j gets exactly node (j+1) mod n, for every n |
| RingWalk.RingIsSingle | simplyblock_core/cluster_ops.py:520-543 | following the secondary pointers k times from node i leads to node (i+k) mod n, for every k: one ring, not several |
| PairingGrowth.ExpansionFormsRing | simplyblock_core/cluster_ops.py:619-659 | two or more new nodes on distinct hosts are paired in a ring of their own; no old record changes |
| PairingGrowth.CompleteIsTaken | simplyblock_core/storage_node_ops.py:3319-3322 | in a completely paired cluster every node serves somebody (pigeonhole) |
| PairingGrowth.CompleteClusterRefusesOne | simplyblock_core/cluster_ops.py:619-635 | one new node: the expansion always fails, restores the status and changes no pair |
| PairingLimits.GreedyMissesPairing | simplyblock_core/storage_node_ops.py:3310-3324 | on the whole family of four nodes with the last two on one host the scan fails although a full pairing exists |
| Fabric.InvariantRule | simplyblock_core/storage_node_ops.py:3051-3172 | what every command and every enabled event keeps holds after every interleaving |
| Fabric.NoPromotionIsSafe | simplyblock_core/storage_node_ops.py:2226-2246 | an operation that promotes nobody never makes two leaders |
| Control.Controller.ForPaths | simplyblock_core/storage_node_ops.py:2228-2246 | the nested loops over lvols and NICs issue one command per listener, skipping NICs without an address |
| Recreate.RecreateLvstore | simplyblock_core/storage_node_ops.py:3001-3194 | the commands the call issues and its result: stack failure, raised recovery failure, held back, or done |
| Recreate.Finish | simplyblock_core/storage_node_ops.py:3140-3172 | promotion, listeners handed to threads, port allowed again |
| Recreate.NeverTwoLeaders | simplyblock_core/storage_node_ops.py:3051-3172 | in no interleaving do both nodes lead, with the secondary online |
| Recreate.PromotedBehindBlockedPort | simplyblock_core/storage_node_ops.py:3054-3172 | the fence of an online secondary holds: from its demotion to the final allow its port is blocked and it does not lead; a normal return has unblocked it |
| Recreate.RaisedLeavesNobody | simplyblock_core/storage_node_ops.py:3096-3133 | when a recovery failure has been raised the primary is killed, offline and not leading, and the lvstore without anyone who leads it or could by itself |
| Recreate.UnfencedSafeIff | simplyblock_core/storage_node_ops.py:3054-3085 | with the secondary not online all interleavings are safe if and only if it is quiet, whatever threads are still on their way |
| Recreate.HeldBackStaysClosed | simplyblock_core/storage_node_ops.py:3031-3039 | with an unreachable secondary and lvols the primary is suspended and gets no accessible path, from the submitted threads either |
| Restoration.ListenersAreHandedOut | simplyblock_core/storage_node_ops.py:3040-3153 | a restart that is not held back: once everything is issued each listener of the primary, one for each lvol and data NIC with an address, is optimized or on its way to be, in every interleaving |
| Restoration.PrimaryIsOpen | simplyblock_core/storage_node_ops.py:3040-3153 | once such a listener is attached the primary is open to clients, its process and port permitting |
| Restoration.PortsAtEnd | simplyblock_core/storage_node_ops.py:3054-3168 | in the end the secondary's port is open if it is online or down and the primary was promoted, blocked if it is online and the primary was not, else as it was; no other port changes |
| Restoration.NotedAtEnd | simplyblock_core/storage_node_ops.py:3033-3133 | a primary that was not promoted is killed and offline, one that is held back suspended; no other status and no other process changes |
| Silencing.Silences | simplyblock_core/storage_node_ops.py:2226-2262 | a stretch that closes or deletes listeners and then demotes leaves the role without path and leadership until something reopens it |
| Suspend.Operator.SuspendStorageNode | simplyblock_core/storage_node_ops.py:2162-2273 | refused exactly if it is not forced and the node is not online, has a restart task, or high availability would suffer; the exact commands otherwise |
| Suspend.Operator.ResumeStorageNode | simplyblock_core/storage_node_ops.py:2278-2386 | refused, crashed on a missing secondary, or done, with the commands of each |
| SuspendLaws.SuspensionExcludes | simplyblock_core/storage_node_ops.py:2226-2262 | once the secondary is closed no lvol is reachable through both nodes; it reopens only after every primary listener is gone and leadership dropped |
| SuspendLaws.SuspensionStopsServing | simplyblock_core/storage_node_ops.py:2213-2224 | for each primary it serves, the node is closed and has stepped down from its part on |
| SuspendLaws.SuspensionEndsQuiet | simplyblock_core/storage_node_ops.py:2213-2250 | when it is over the node neither leads nor can come to lead its own lvstore or one it serves, whatever the secondary's status |
| SuspendLaws.ResumptionExcludes | simplyblock_core/storage_node_ops.py:2328-2369 | no primary listener before the secondary is closed and demoted; the secondary reopens only after all primary listeners exist |
| SuspendLaws.SuspendAndResumeKeepOneLeader | simplyblock_core/storage_node_ops.py:2213-2369 | neither call ever makes a second leader, whatever the secondary's status |
| RoundTrip.PathsFollow | simplyblock_core/storage_node_ops.py:2213-2369 | the path table depends only on how far the program has come, not on the events between |
| RoundTrip.TableAfter | simplyblock_core/storage_node_ops.py:2213-2386 | the whole table after a suspension and a resumption, also when the secondary's status changed in between |
| RoundTrip.SuspendedTable | simplyblock_core/storage_node_ops.py:2213-2273 | the whole path table and the node's status after a suspension: own listeners gone, those of an online secondary on standby, those it has for others closed, all others as they were |
| RoundTrip.ResumedTable | simplyblock_core/storage_node_ops.py:2328-2386 | the same after a resumption: own listeners optimized, those of an online secondary and those it has for others on standby |
| RoundTrip.CrashedTable | simplyblock_core/storage_node_ops.py:2328-2362 | and without a secondary record: own listeners optimized, nothing else touched, the node not noted as online |
| RoundTrip.AbsentPartnerIsLeftAlone | simplyblock_core/storage_node_ops.py:2226-2345 | a secondary that is not online is not asked to step down |
| RoundTrip.RestoredIffSteady | simplyblock_core/storage_node_ops.py:2213-2386 | the table is restored if and only if own listeners were optimized and the listeners set back were on standby |
| BdevStack.CreateOne | simplyblock_core/storage_node_ops.py:3492-3546 | one entry: skipped if present or not creatable in this mode, else created, mapped if a distrib, and marked |
| BdevStack.CreateEach | simplyblock_core/storage_node_ops.py:3486-3537 | the creation loop, the list of created entries newest first, the marks set in place |
| BdevStack.CreateBdevStack | simplyblock_core/storage_node_ops.py:3475-3546 | RPC log, resulting bdevs, ending and marks of the whole call, rollback included |
| BdevStack.RemoveBdevStack | simplyblock_core/storage_node_ops.py:3549-3569 | deletions last entry first; deleted, unknown and, on request, lvstore entries are left |
| BdevStack.MadeMeans | simplyblock_core/storage_node_ops.py:3497-3537 | what is remembered for rollback was missing, creatable and mapped |
| StackLaws.LoopWorld | simplyblock_core/storage_node_ops.py:3492-3537 | after the loop exactly what was brought into being is added |
| StackLaws.RollbackRestores | simplyblock_core/storage_node_ops.py:3540-3544 | after a failed create at any position the node has exactly what it had, plus what a failing deletion left |
| StackLaws.FailureRestoresIff | simplyblock_core/storage_node_ops.py:3512-3544 | a failed call restores the node if and only if a create failed and not the sending of the map |
| StackLaws.RollbackReverses | simplyblock_core/storage_node_ops.py:3540-3569 | the deletions are exactly the creations reversed, none of a bdev that was there before; other calls delete nothing |
| StackLaws.BasesNeverVanish | simplyblock_core/storage_node_ops.py:3492-3569 | at every point of the call, rollback included, every bdev has the bdevs it is built on |
| StackLaws.SecondRunDoesNothing | simplyblock_core/storage_node_ops.py:3497-3498 | after a completed run a restart or secondary run sends no RPC and completes |
| StackContents.AskedForIff | simplyblock_core/storage_node_ops.py:3492-3544 | an entry is asked for exactly if nothing goes wrong before it, it is missing and its kind is made: an lvstore only on the primary for the first time, an unknown kind never |
| StackContents.SentMapIff | simplyblock_core/storage_node_ops.py:3500-3517 | a cluster map is sent exactly to a distrib the call has created |
| StackContents.CompletesIff | simplyblock_core/storage_node_ops.py:3492-3544 | the call completes exactly if nothing goes wrong at any entry |
| StackContents.CompletedWorld | simplyblock_core/storage_node_ops.py:3492-3544 | a completed call adds every bdev of the stack and, on the primary for the first time, every lvstore, and nothing else |
| StackContents.NoStoreElsewhere | simplyblock_core/storage_node_ops.py:3519-3520 | in a restart and on a secondary no lvstore comes or goes, however the call ends |
| StackContents.MarkedIff | simplyblock_core/storage_node_ops.py:3535-3544 | what the call has created ends up marked as created, or as deleted if a create failed; everything else keeps its mark |
| StackContents.DeletedIff | simplyblock_core/storage_node_ops.py:3549-3569 | exactly what is not deleted already and of a known kind is deleted, an lvstore only if not told to leave it |
| Lvstore.BuildDistribs | simplyblock_core/storage_node_ops.py:3354-3381 | distinct names, total size count times blocks |
| Lvstore.BuildStack | simplyblock_core/storage_node_ops.py:3327-3416 | a layered stack with distinct names, a raid exactly if there are several distribs, and total capacity T with T <= max < T + n * block size |
| Lvstore.CreateLvstore | simplyblock_core/storage_node_ops.py:3418-3448 | success exactly if nothing goes wrong on either node; then both hold every bdev of the stack and the primary the lvstore; on the secondary no lvstore comes or goes; it is touched only after the primary is complete |
| Journals.Counter.Collect | simplyblock_core/storage_node_ops.py:3238-3244 | online journals of the other nodes, in scan order, with their hosts |
| Journals.Counter.CountUses | simplyblock_core/storage_node_ops.py:3246-3253 | for each of them the number of places at which the other nodes name it |
| Journals.PickEach | simplyblock_core/storage_node_ops.py:3255-3265 | the greedy pass over the sorted journals |
| Journals.GetSortedHaJms | simplyblock_core/storage_node_ops.py:3233-3266 | at most two journals on different other hosts; no choice of at most two has more, and none is named by the other nodes at fewer places |
| Journals.SortAscending | simplyblock_core/storage_node_ops.py:3256 | the order is ascending in usage |
| Journals.SortIsStable | simplyblock_core/storage_node_ops.py:3256 | equally used journals keep the scan order |
| Journals.KeysAreOffered | simplyblock_core/storage_node_ops.py:3238-3244 | a collected journal is an online journal of another node, with that node's host |
| Journals.OfferedAreKeys | simplyblock_core/storage_node_ops.py:3238-3244 | and every such journal is collected |
| Journals.KeysInScanOrder | simplyblock_core/storage_node_ops.py:3238-3244 | those of the first nodes come first |
| Journals.UsesIsMentions | simplyblock_core/storage_node_ops.py:3246-3253 | usage is the number of pairs of another node and a position in its list at which the journal stands |
| Journals.ChoiceIsAdmissible | simplyblock_core/storage_node_ops.py:3255-3266 | the choice is on pairwise distinct hosts, none the own one, at most HA_JM_COUNT - 1 |
| Journals.PickIsBest | simplyblock_core/storage_node_ops.py:3255-3265 | the exchange argument: for any ascending order no choice on different other hosts is larger than the greedy pick or uses less than its first members |
| Journals.ChoiceIsBest | simplyblock_core/storage_node_ops.py:3246-3266 | no admissible choice within the limit is larger than the one returned, and none is named by the other nodes at fewer places |
| JournalNames.ConnectToRemoteJmDevs | simplyblock_core/storage_node_ops.py:706-775 | which journals end up attached, or that an unguarded lookup raises |
| JournalNames.GetNodeJmNames | simplyblock_core/storage_node_ops.py:3269-3297 | the list of names, seen from the node itself or from another; raises on a viewer without journal |
| JournalViews.ConnectAttaches | simplyblock_core/storage_node_ops.py:742-775 | attached is exactly what was gathered, is online on an online other node, and could be connected |
| JournalOutcomes.GatheredIff | simplyblock_core/storage_node_ops.py:718-743 | which journals are gathered: those asked for and those of the record that some node has, and what the node served has |
| JournalOutcomes.ResolvesIff | simplyblock_core/storage_node_ops.py:735-743 | the call raises exactly if the node serves one that has no record, or one that lists a journal no node has |
| JournalOutcomes.AttachedIff | simplyblock_core/storage_node_ops.py:745-775 | a gathered journal is attached exactly if a record of it names a bdev and the first node that has it is another one, online like the journal, and reached |
| JournalOutcomes.AttachedOnce | simplyblock_core/storage_node_ops.py:745-775 | each once, under the bdev of the first node that has it |
| JournalOutcomes.NamesMean | simplyblock_core/storage_node_ops.py:3269-3297 | the list starts with the own journal as it is called there, is at most three long and nothing else without high availability; it raises exactly if a node without a journal looks at a list that is not empty |
| JournalOutcomes.NameOfOne | simplyblock_core/storage_node_ops.py:3280-3296 | what one id of the record adds: nothing, the local bdev of the node that looks, or the name of the first record of it that is attached there |
| JournalViews.SortedAreChoice | simplyblock_core/storage_node_ops.py:3233-3266 | what is returned are journals other nodes offer, each once, within the limit: what the results on the two lists need of it |
| JournalViews.ListsAgreeIff | simplyblock_core/storage_node_ops.py:3342-3349 | the primary's and the secondary's list denote the same journals in the same order if and only if both can use the same chosen ones; at most HA_JM_COUNT |
| JournalViews.ListsDifferIff | simplyblock_core/storage_node_ops.py:3269-3297 | with all connections succeeding they differ only if the secondary's journal was chosen and its node is not online |
| JournalViews.ListsAreComplete | simplyblock_core/storage_node_ops.py:3440-3446 | with everybody online both lists are the own journal and all chosen ones, without repetition |
| ClusterMap.MapDevices | simplyblock_core/distr_controller.py:135-165 | the inner loop: entries, weight slots and node weight |
| ClusterMap.GetDistrClusterMap | simplyblock_core/distr_controller.py:122-190 | the full map and weights a node is sent; a node is mapped with the status of its record, a schedulable one as unreachable |
| ClusterMap.Fleet.SendClusterMapToNode | simplyblock_core/distr_controller.py:253-276 | the node then holds the full map |
| ClusterMap.Fleet.SendNodeStatusEvent | simplyblock_core/distr_controller.py:15-51 | who is sent which node status, and that everybody else keeps what they hold; what is shown then is `MapShows.NodeEventShown` |
| ClusterMap.Fleet.SendDevStatusEvent | simplyblock_core/distr_controller.py:54-101 | the same for a device, with online turned into unavailable for nodes that are not attached |
| ClusterMap.Fleet.SetNodeStatus | simplyblock_core/storage_node_ops.py:2870-2883 | record first, event after, nothing if the status is the same |
| ClusterMap.Fleet.SetDeviceState | simplyblock_core/controllers/device_controller.py:50-76 | refused for read-only on unavailable; otherwise the record, for a device coming online the renewed remote records of the other online nodes, and the event |
| ClusterMap.ParseDistrClusterMap | simplyblock_core/distr_controller.py:193-250 | passed if and only if every line is right; one row per node or device line with its verdict |
| MapLaws.OneStep | simplyblock_core/distr_controller.py:15-101 | one status change and its event keep the map held near the full map |
| MapLaws.Perform | simplyblock_core/storage_node_ops.py:2870-2883 | the operations of a run are those of the class |
| MapLaws.FoldingIsRecomputing | simplyblock_core/distr_controller.py:15-171 | folding any run of events over a full map is recomputing the map from the final database, for a receiver that reaches by name just the devices it has attached, which is when an event and the map agree on a device |
| MapLaws.FoldingNeverOverstates | simplyblock_core/distr_controller.py:78-88 | without online records the map held differs only in showing some online device unavailable |
| MapLaws.WeightIsCounted | simplyblock_core/distr_controller.py:160-174 | node weight equals the weight of items with an id if and only if no live device shares its storage ID with a later one and none is without; else it is larger |
| MapCheck.JudgeDevice | simplyblock_core/distr_controller.py:224-249 | a device entry of the own map passes unless the device is online and not reached |
| MapCheck.OwnMapPassesIff | simplyblock_core/distr_controller.py:138-250 | the check of a node's own full map passes if and only if every online device of it is local or reached remotely; no entry of one node may overwrite another, but nodes may share storage IDs |
| MapShows.NodeShown | simplyblock_core/distr_controller.py:128-171 | exactly the nodes that are not dedicated are in a map, with the status of the record, a schedulable one as unreachable |
| MapShows.DeviceShown | simplyblock_core/distr_controller.py:134-159 | what is shown of a device that is neither a journal nor new: id, label, name and status, an online one as unavailable if it is not reached |
| MapShows.OnlyDevicesShown | simplyblock_core/distr_controller.py:134-136 | nothing else is shown of a node |
| MapShows.ItemShown | simplyblock_core/distr_controller.py:137-164 | its weight item: its size, at least one, under its storage ID, or under none if it has failed |
| MapShows.OnlyItemsShown | simplyblock_core/distr_controller.py:134-174 | there is no other item, and none twice |
| MapShows.WeightsShown | simplyblock_core/distr_controller.py:172-180 | the weights come in the order of the nodes, without the dedicated ones |
| MapShows.NodeEventShown | simplyblock_core/distr_controller.py:15-51 | what a node event makes of the map of each node: the new status where it is heard and the node mapped, nothing else |
| MapShows.StatusIsShown | simplyblock_core/storage_node_ops.py:2870-2883 | the same for a whole change of status, which is heard with the records as they then are |
| MapShows.DeviceEventShown | simplyblock_core/distr_controller.py:54-101 | what a device event makes of it: online is shown as unavailable where the device is neither local nor attached online |
| MapShows.RenewalTouches | simplyblock_core/controllers/device_controller.py:65-72 | a renewal touches nothing but the remote records of the other online nodes |
| MapShows.ComingOnlineShown | simplyblock_core/controllers/device_controller.py:50-76 | a node whose renewed records have the device online is told so, others that it is unavailable: the records are renewed first |
| MapShows.NodeLinePassesIff | simplyblock_core/distr_controller.py:203-227 | a node line passes exactly with the status of the record, unreachable for schedulable |
| MapShows.DeviceLinePassesIff | simplyblock_core/distr_controller.py:228-249 | a device line passes exactly with the status of the record |
| MapShows.StrangersAreNotFound | simplyblock_core/distr_controller.py:224-248 | ids that are in no record are reported as not found |
| Labels.GetNextPhysicalDeviceOrder | simplyblock_core/storage_node_ops.py:105-118 | the host's label, or the least unused positive one, at most one past the number in use; the search stops |
| Labels.AdditionKeepsLabels | simplyblock_core/storage_node_ops.py:105-118 | with such a label nodes still share labels exactly when they share hosts |
| Labels.Cluster.AddNode | simplyblock_core/storage_node_ops.py:1051 | the record stored without a label before the search does not disturb it |
| Labels.Cluster.AddNodes | simplyblock_core/storage_node_ops.py:1051 | over any sequence of additions: same label if and only if same host |
| StorageIds.Cluster.GetNextClusterDeviceOrder | simplyblock_core/storage_node_ops.py:93-102 | one past the largest ID of the cluster, 0 without devices |
| StorageIds.Cluster.PrepareJmOnDev | simplyblock_core/storage_node_ops.py:503-539 | what is stored for the node; nothing if a stack cannot be created |
| StorageIds.Cluster.PreparePartitions | simplyblock_core/storage_node_ops.py:425-500 | the same with partitions, where only newly found ones are numbered; nothing if the journal's stack cannot be created either |
| StorageIds.Cluster.AddDevice | simplyblock_core/controllers/device_controller.py:637-642 | a new ID and online, whatever the device had |
| StorageIdLaws.NextOrderIs | simplyblock_core/storage_node_ops.py:93-102 | 0 without devices, else one past the largest, an ID that some device has unless none has one |
| StorageIdLaws.AddedDevice | simplyblock_core/controllers/device_controller.py:637-642 | the device is online with an ID above all others; nothing else changes |
| StorageIdLaws.WholeIsStored | simplyblock_core/storage_node_ops.py:514-538 | without partitions every device that is no journal is stored, in order and as it is, online ones without an ID with the next new ones |
| StorageIdLaws.PartsAreStored | simplyblock_core/storage_node_ops.py:434-492 | with partitions: what is not to be partitioned as it is, and of the others the partitions found, with the ID the device brought or a new one |
| StorageIdLaws.NumberAt | simplyblock_core/storage_node_ops.py:531-535 | each device keeps its ID or gets the next new one |
| StorageIdLaws.StepKeepsUnique | simplyblock_core/storage_node_ops.py:425-539 | one preparation or addition keeps storage IDs unique in the cluster |
| StorageIdLaws.IdsStayUnique | simplyblock_core/storage_node_ops.py:93-102 | so does every sequence of them, failing ones included, under exactly that condition on the preparations with partitions |
| StorageIdLaws.OnlineHasId | simplyblock_core/storage_node_ops.py:524-535 | after a preparation without partitions every online device has an ID |
| StorageIdLaws.PartitionsNumberedIff | simplyblock_core/storage_node_ops.py:439-490 | for any list of devices, every online device of the result has an ID if and only if every online partition handed in had one |
| StorageIdLaws.PartitionsUniqueIff | simplyblock_core/storage_node_ops.py:476-490 | for any list of devices, the preparation keeps storage IDs unique if and only if no device brings an ID for several partitions |
| StorageIdLaws.UniqueIdsWeighExactly | simplyblock_core/distr_controller.py:134-174 | unique IDs on all mapped devices make node weights exact |
| Devices.Node.Reconcile | simplyblock_core/storage_node_ops.py:1698-1740 | active, removed and new devices, the record and the journal after the matching; or that it raises, with nothing written |
| Devices.Node.Suspend | simplyblock_core/storage_node_ops.py:2264-2273 | online devices and a journal that is not removed become unavailable |
| Devices.Node.Resume | simplyblock_core/storage_node_ops.py:2295-2310 | unavailable devices and any journal become online, even if the call fails later |
| Devices.Node.Shutdown | simplyblock_core/storage_node_ops.py:2088-2152 | devices in use become unavailable, also if the process cannot be killed |
| Devices.Node.Restart | simplyblock_core/storage_node_ops.py:1698-1850 | devices, journal and the status of the node for every point at which it may end: matching that raises, a failing journal stack, no connections, a recreation that raises, fails or succeeds |
| Devices.Node.Remove | simplyblock_core/storage_node_ops.py:1304-1399 | every device but journals, migrated ones and those with a restart task of their own becomes failed |
| DeviceLaws.ChosenSplits | simplyblock_core/storage_node_ops.py:1703-1723 | active and removed together are the devices of the record, each once |
| DeviceLaws.ChosenMeans | simplyblock_core/storage_node_ops.py:1703-1723 | and removed are exactly those out of use |
| DeviceLaws.NothingLost | simplyblock_core/storage_node_ops.py:1698-1740 | every device stays in place with its identity; gone ones unchanged; the others removed exactly if not discovered |
| DeviceLaws.UnknownOnce | simplyblock_core/storage_node_ops.py:1731-1740 | each discovered serial that is not accounted for is appended exactly once, as new, and nothing else |
| DeviceLaws.ReconcileTwice | simplyblock_core/storage_node_ops.py:1698-1740 | a second pass over the same discovered devices changes nothing |
| DeviceLaws.SuspendResumeDevices | simplyblock_core/storage_node_ops.py:2264-2299 | suspension and resumption restore all device statuses if and only if no device was unavailable |
| DeviceLaws.SuspendThenResume | simplyblock_core/storage_node_ops.py:2162-2386 | the two calls in a row restore all device statuses if and only if no device was unavailable, and the journal if and only if it was online |
| DeviceLaws.NeverRevived | simplyblock_core/storage_node_ops.py:1784-1788 | over every run of suspend, resume, shutdown, restart and remove no device that is not in use comes into use |
| DeviceLaws.GoneStaysGone | simplyblock_core/storage_node_ops.py:1703-1708 | failed and migrated devices stay as they are and in the record; removed ones become at most failed |
| DeviceLaws.PerformRestart | simplyblock_core/storage_node_ops.py:1698-1790 | a restart, refused or not, is a call of such a run |
| DeviceOutcomes.RestartedDevice | simplyblock_core/storage_node_ops.py:1698-1790 | what a restart makes of each device of the record: gone ones stay, missing ones are removed, found ones move to where they are found, and from some point on everything in use is online |
| DeviceOutcomes.RestartedNew | simplyblock_core/storage_node_ops.py:1731-1740 | a device that neither the record nor the journal accounts for is there as new |
| DeviceOutcomes.NobodyLeftBehind | simplyblock_core/storage_node_ops.py:1784-1790 | past that point no device is unavailable, read-only or full |
| DeviceOutcomes.RestartedJournal | simplyblock_core/storage_node_ops.py:1725-1735 | the journal moves to where it is found; one that was not removed is withdrawn, and online again in the end |
| DeviceOutcomes.FinishRestart | simplyblock_core/storage_node_ops.py:1698-1850 | a restart of an offline node with devices that gets to its end: the node is online, and so is every device in use that is discovered |
| DeviceOutcomes.WithdrawalLeaves | simplyblock_core/storage_node_ops.py:2121-2127 | what suspension and shutdown leave of every status |
| DeviceOutcomes.ResumptionLeaves | simplyblock_core/storage_node_ops.py:2297-2299 | what a resumption leaves of every status: read-only and full devices stay as they are |
| DeviceOutcomes.WithdrawnJournal | simplyblock_core/storage_node_ops.py:2268-2270 | a journal that was not removed becomes unavailable and stays where it is |
| DeviceOutcomes.RemovalLeaves | simplyblock_core/storage_node_ops.py:1304-1399 | what a removal leaves of every status |

## Left out

- PairingRuns.RunsKeepPairing: only the condition for one expansion is exact; a later activation may repair what an expansion lost.
- Pairing.ChosenMeans: dedicated secondaries are in the type and may be chosen, but nothing is claimed about their back pointer, which keeps only the last primary.
- PairingRing.FreshClusterFormsRing: nodes on distinct hosts only; with several nodes on a host the scan can fail, see `GreedyMissesPairing`.
- ClusterDb.Database.RecreateLvstore: recreating a secondary (line 3183) is passed the node's primary where a secondary is expected; only the records it writes are modelled, nothing is claimed about its sense, and that it raises is not modelled.
- ClusterDb.Database.RecreateLvstoreOnSec: exceptions in the rebuilding of a secondary are not modelled.
- Recreate.HeldBackStaysClosed: the mark of suspension is the one the call sets; storing a new hublvol may overwrite it, see `SuspensionIsNotedIff`.
- MapLaws.FoldingIsRecomputing: every event reaches its receivers (the program logs a failed delivery and goes on), and remote records come out of a renewal as they were.
- StorageIdLaws.IdsStayUnique: devices handed in have no storage ID yet or are stored on that node.
- DeviceLaws.GoneStaysGone: ids of discovered devices are new, as random ids are.
- Lookups by an empty id, which match every record of a kind in `read_from_db`; a node without a secondary has no partner.
- RPC transport, retries, timeouts and sleeps; threads other than the listener threads of `recreate_lvstore`; the polling for I/O in flight; hublvols beyond the record write they cause.
- Whether lvol namespaces are attached before a port opens: the threads are never joined.
- Other clusters in the same database; creation order is a list instead of a sort by time.
- Exceptions nobody catches are outcomes (`Crashed`, `Raised`); what the caller does then is not part of this model. As a protocol, `recreate_lvstore` without a secondary record raises before its first command and is not modelled; the records it has written by then are.
- `recreate_lvstore_on_sec` as a protocol; what it writes is modelled.
- Removal of a paired node's record, which leaves dangling pointers.
- Administrative commands running at the same time.
- Restart on another host, EBS volumes, SPDK start, memory and core masks, Docker and Kubernetes.
- Size conversion, vuid and port generation, the strip size and other parameters of the bdevs; the round-robin choice of a core for a distrib.
- The node affinity index of the cluster map, and timestamps and names in maps and events.
- The regular expressions of `parse_distr_cluster_map`; a line comes with its fields read.
- The journal device in the runs of `DeviceLaws`; only suspension followed by resumption is stated for it.
- The CLI, the web layer and statistics.
