# Rivolt: a verified model of its hard parts

A Dafny 4.11 model of the parts of Rivolt that are hard to get right, and proofs of what they promise.
`dafny verify dfyconfig.toml` checks all of it.

- **Charge clustering** (`DensityGraph`, `Dbscan`, `DbscanOrder`, `Clusters`, `ClusterLaws`, `ClusterFacts`,
  `ClusterOrder`, `ChargeSplit`): the in-place DBSCAN against a declarative labelling, how far it depends on input
  order, the grouping, ranking and naming of the clusters in every iteration order of the Go map, exactly when that
  order shows, and what an answer says of the charges' own coordinates, power and energy.
- **Round trips** (`RoundTrips`, `RoundTripLaws`): the greedy collapsing of drives, its maximality and idempotence, and
  what a merged row says of its legs.
- **Backup and restore** (`Json`, `Bundle`, `Account`, `Replay`, `Prices`, `Convergence`, `Restore`, `RestoreLaws`,
  `RestoreFacts`, `Acceptance`, `Recovery`, `AccountRecovery`, `AccountColumns`, `KeyOrder`, `RestoreExamples`,
  `Restorer`): the streamed writer, the token-by-token reader, the admission gate, the sample batches, which rows a
  restore writes, the upserts column by column, what an account holds after a restore, and what an interrupted restore
  followed by a full one leaves behind.
- **The guard on both** (`Gaps`, `Guard`): semaphore, per-user gap, cooldown, over all interleavings and replicas.
- **Apple token revocation** (`AppleRevoke`, `AppleQueue`): deletions, purges, retriers and crashes around the queue.
- **Re-pricing and its undo** (`Reprice`), **the cold-range band** (`ColdRange`), **the re-authentication e-mail**
  (`ReauthEmail`), **ECDSA signatures and certificate selection** in the runner script (`EcdsaSignature`,
  `RunnerCerts`), **audit paging** (`AuditPaging`).
- `Sums`, `Seqs`, `Sets` and `Options` hold what several of these need.

## Conventions

Code that updates variables or fields in place is a method or a class, proved against functions; protocols are state
machines whose steps are one SQL statement or transaction, one outside call, or a crash. Floating point is `real`;
times are integers. Distances are arbitrary functions: clustering uses only their symmetry, collapsing nothing at all.
Decoding a row from JSON, Apple's and the mailer's answers, clocks, and the order of a Go map are parameters or
arbitrary choices.

## Where the code and its comments differ

The model follows the code.

- *Re-running a restore is idempotent* (internal/api/data.go:617-630): exactly when the price and network of every
  charge replay and no milestone comes only before its vehicle (`ConvergesIffStable`). They replay unless a bill opens a
  confirmed network for good or a new row starts with a billed network (`UndisturbedUnlessOpened`); where no billed key
  repeats, exactly when every bill is settled (`PricesReplayIffSettled`, `ChargeIdempotentIffSettled`). Two backups
  whose second restore changes the account again: a bill over a confirmed network with another confidence
  (`BillDoesNotConverge`), and a milestone of a vehicle that has samples but no drive and no charge
  (`EarlyMilestoneDoesNotConverge`).
- A restored backup is not always the account it was made of: a new account gets every row back exactly when each charge
  shows the place its user gave, the extra tables have their database, and each milestone's vehicle has a drive or a
  charge, since the backup writes milestones before samples (internal/api/data.go:400-420) and a milestone without its
  vehicle is dropped (`RestoreRecoversBackup`, `FreshRestoreIsExactIff`, `EarlyMilestoneDoesNotConverge`). For the
  same reason the order of the top-level keys matters to milestones, and to nothing else (`KeyOrderKeepsRows`,
  `MilestonesDependOnKeyOrder`).
- *Deterministic analyses* (internal/analytics/cluster.go:1): the answer is the same in every iteration order of the map
  if and only if no clusters of two different entries tie on sessions and energy (`DeterministicIffNoTies`). Which
  cluster is Home depends on it if and only if two groups tie at the top (`HomeOrderFreeIffNoTie`); with the default
  parameters, two pairs of charges do (`HomeCanDependOnIteration`).
- *Only when both the revoke and the queueing fail does the deletion stop*, the token otherwise being revoked or queued
  (internal/api/apple_revoke.go:17-22): the purge's Cancel also runs when the account is already gone, even when the
  purge began only then; a sign-in can bring a new token during a deletion; a retrier can delete a row whose token was
  replaced. Runs that keep three rules lose no token (`CarefulRunsLoseNothing`), and breaking one of them once loses it
  exactly when `LossIffBreach` says; `TokensCanBeLost` has five runs, one of them a purge whose own deletion landed
  without its answer.
- *One real raise sends one email* (cmd/rivolt/reauth_email.go:19-22): a raise can come to as many e-mails as were sent
  and, while it stands, as processes wait on it or have not read the flag yet (`CanGetIffMost`). A new raise can get two
  if and only if the process of an earlier one has not read yet (`TwoMailsIffStraggler`, `LateFirstReadMailsTwice`).
- *Fails once more than left bytes were read* (internal/api/data.go:842): the call after the cap was used up fails, also
  when the source ends right there (`CapReader.Read`).
- *How long until a retry could succeed* (internal/api/data.go:456-459): in the database a retry exactly then is still
  refused when a second or more was left (`DatabaseRetryAtHeader`).
- *Puts every row's pricing back exactly as it was* (cmd/rivolt/reprice.go:434-437): as they were when the backup was
  read, which is as they were when re-priced if and only if nothing wrote their pricing in between (`LateApplyUndone`).
- *WindowStart to now is about 100* months (internal/samples/window.go:28-30): a restore's window opens in January 2021
  and holds at most 120 months until the end of 2030; so long the store's limit refuses no batch of a restore
  (`ShortWindowIsNarrow`), and later it refuses a file exactly when one of its batches spans more (`AcceptedIffSound`).

## Model

| member | source | states |
|---|---|---|
| `DensityGraph.NoiseIffNoCoreNear` | `internal/analytics/cluster.go:147-166` | a charge is noise if and only if no core point has it within epsilon (a core point never is) |
| `DensityGraph.SameLabelIffLinked` | `internal/analytics/cluster.go:147-166` | two core points get the same label exactly when a chain of core points, each within epsilon of the next, joins them |
| `DensityGraph.NumberedByLowestCore` | `internal/analytics/cluster.go:153-166` | clusters are numbered in the order of their lowest-index core points |
| `DensityGraph.BorderTakesSmallest` | `internal/analytics/cluster.go:249-263` | a clustered point that is not core carries the smallest cluster number among the core points within epsilon of it |
| `Dbscan.RegionQuery` | `internal/analytics/cluster.go:268-279` | returns each point within epsilon exactly once, so its length is the neighbourhood's size |
| `Dbscan.ExpandCluster` | `internal/analytics/cluster.go:240-264` | draining the growing queue terminates; afterwards every visited core point's neighbourhood is visited, core points carry the number of a core point they are linked to, border points that of a core point near them, and no neighbourhood was asked for twice in the whole run |
| `Dbscan.Run` | `internal/analytics/cluster.go:147-166` | the in-place algorithm computes the declarative labelling of DensityGraph for any symmetric distance, asks for each point's neighbourhood once, and leaves no label 0 |
| `DbscanOrder.NoiseAndCoresOrderFree` | `internal/analytics/cluster.go:147-166` | permuting the charges changes neither which are noise nor which core points share a cluster |
| `DbscanOrder.OrderFreeIffUncontested` | `internal/analytics/cluster.go:249-263` | the whole partition is independent of the input order if and only if no border point lies within epsilon of two different clusters |
| `DbscanOrder.SmallMinPointsIsOrderFree` | `internal/analytics/cluster.go:97-104` | with MinPoints at most 2, as by default, there are no border points and the partition never depends on the order |
| `DbscanOrder.PartitionCanDependOnOrder` | `internal/analytics/cluster.go:249-263` | seven charges on a line, MinPoints 4, whose partition does depend on their order |
| `Clusters.Normalised` | `internal/analytics/cluster.go:119-128` | a distance that is not positive brings all the defaults, 200 m, 2 charges and 50 kW; else fewer than one charge becomes 1 and a power that is not positive 50 kW, and usable parameters are left alone |
| `Clusters.Build` | `internal/analytics/cluster.go:281-309` | one cluster from its members: ids in order, count, energy, mean position, largest distance from it |
| `Clusters.BuildFast` | `internal/analytics/cluster.go:311-350` | one cluster of all fast charges, its position and radius taken from those with a fix only |
| `Clusters.GroupByLabel` | `internal/analytics/cluster.go:168-173` | the map holds, for every label that occurs, exactly its indices in order |
| `Clusters.ClustersOfGroups` | `internal/analytics/cluster.go:174-183` | for some order of the map's keys, noise points become singletons and every other group one cluster |
| `Clusters.NameClusters` | `internal/analytics/cluster.go:194-205` | the first cluster with MinPoints sessions becomes Home, every other slow one Public |
| `Clusters.ClusterCharges` | `internal/analytics/cluster.go:119-236` | for every input the answer is the ranked, named outcome of the density labelling under one of the map's iteration orders; the `ClusterFacts` rows say what that is in terms of the charges |
| `ClusterFacts.CoresTogetherIffChained` | `internal/analytics/cluster.go:240-279` | of any answer, for distinct ids: two core charges, slow ones with a fix that have at least MinPoints such charges within epsilon of their latitude and longitude, are members of one cluster if and only if a chain of core charges, each within epsilon of the next, joins them |
| `ClusterFacts.LonelyIsAlone` | `internal/analytics/cluster.go:175-180` | a slow charge with a fix that has no core charge within epsilon is a cluster of its own at its own place |
| `ClusterFacts.BorderJoinsEarliest` | `internal/analytics/cluster.go:249-263` | one that is not core but has core charges within epsilon joins, of their clusters, the one whose first core charge comes first in the input |
| `ClusterFacts.EveryClusterAddsUp` | `internal/analytics/cluster.go:130-145` | every cluster is that of some of the charges: all of at least FastMin power for Fast, with or without a fix, the other ones without a fix for Unknown, slow ones with a fix else; its members, sessions and energy are theirs, its pin the mean of those with a fix, and its radius the distance of the farthest of them, no more |
| `ClusterFacts.PinBetweenMembers` | `internal/analytics/cluster.go:281-309` | each coordinate of a pin lies between those of the charges it is taken from |
| `ClusterFacts.AnswerIsRanked` | `internal/analytics/cluster.go:185-236` | no cluster of an answer is followed by a larger one, by sessions, then energy; the one without a place comes last |
| `ClusterFacts.HomeIsLargest` | `internal/analytics/cluster.go:194-205` | either no slow cluster has MinPoints sessions and none is Home, or exactly one is Home, it has them, and no slow cluster is larger |
| `ClusterLaws.ComputedLabelsAreProper` | `internal/analytics/cluster.go:147-166` | the labels that reach the grouping are -1 or a cluster number, and -1 only when MinPoints is at least 2 |
| `ClusterLaws.AnswerConserves` | `internal/analytics/cluster.go:130-236` | in every iteration order the member ids of the answer are a permutation of the input ids, and sessions and energy add up to the input's |
| `ClusterLaws.AnswerDescends` | `internal/analytics/cluster.go:185-236` | an Unknown cluster occurs exactly when some slow charge has no fix, and only in the last place; all others are in descending order of sessions, then energy |
| `ClusterLaws.HomeIsTheTopGroup` | `internal/analytics/cluster.go:194-205` | there is at most one Home; there is one exactly when some slow group has MinPoints members; it is such a group that no other outranks, never a noise singleton |
| `ClusterOrder.AnswerOrderFreeIffNoTies` | `internal/analytics/cluster.go:168-236` | for distinct charge ids, the whole answer is the same in every iteration order of the map if and only if no clusters of two different entries tie on sessions and energy |
| `ClusterOrder.DeterministicIffNoTies` | `internal/analytics/cluster.go:119-236` | so for the program: one answer is possible for an input if and only if the groups it finds there do not tie |
| `ClusterOrder.HomeOrderFreeIffNoTie` | `internal/analytics/cluster.go:168-205` | for distinct charge ids, Home is the same in every iteration order if and only if no two groups tie at the top on sessions and energy |
| `ClusterOrder.HomeCanDependOnIteration` | `internal/analytics/cluster.go:175-205` | four charges in two pairs, clustered with the default parameters: two answers are possible, with different Homes |
| `ChargeSplit.ClusterLabels` | `internal/api/charge_split.go:73-85` | for every input the returned map is that of a possible clustering with the default parameters: it labels exactly the ids of the charges, for distinct ids each by the cluster it is a member of, and each by its pool |
| `ChargeSplit.LabelledIds` | `internal/api/charge_split.go:73-85` | the map labels exactly the ids of the charges |
| `ChargeSplit.LabelOfMember` | `internal/api/charge_split.go:79-83` | for distinct ids the overwriting is harmless: every member of a cluster has that cluster's label |
| `ChargeSplit.EveryChargeFits` | `internal/api/charge_split.go:71-85` | a fast charge is labelled Fast, one without a fix Unknown, any other Home or Public |
| `RoundTrips.MergeChain` | `internal/api/activity.go:146-206` | the accumulating loop computes the merged row. Of two legs or more: the cost is absent if and only if some leg over 0.1 mi that lost charge has none, and the energy is 0 if one has none, else each is the total over the legs over 0.1 mi; the rate is their quotient, there exactly when both are; top speed, distance, driving time and weighted speed are the legs', and the ends and the trailer flag come from the legs they should |
| `RoundTrips.TrailerOf` | `internal/api/activity.go:208-226` | the early-exit loop computes the three-valued trailer flag of a chain |
| `RoundTrips.FarthestEnd` | `internal/api/activity.go:117-130` | scanning an unbroken run finds the last leg that ends within the radius of the origin |
| `RoundTrips.CollapseRoundTrips` | `internal/api/activity.go:107-143` | there is one way to cut the oldest-first list into consecutive runs such that each run of two or more returns within the radius of where it left over acceptable gaps, and nothing after it still would; newest first, the answer has the row of each run's legs |
| `RoundTrips.SpansAreGreedy` | `internal/api/activity.go:116-137` | the spans found are consecutive, cover the list, and each goes to the farthest qualifying end |
| `RoundTrips.GreedyPartitionUnique` | `internal/api/activity.go:116-137` | there is only one such partition of a list |
| `RoundTripLaws.CollapseIsIdempotent` | `internal/api/activity.go:102-143` | for any distance, radius and gap, collapsing a collapsed list changes nothing |
| `RoundTripLaws.CollapsePartitionsMaximally` | `internal/api/activity.go:116-137` | the rows are merges of consecutive non-empty chains that make up the input; every inner gap is within bounds, a chain of two or more ends within the radius of its origin, and no later leg of the same unbroken run does |
| `RoundTripLaws.RowIsMergedSpan` | `internal/api/activity.go:131-136` | row k is the merge of the legs of span k |
| `RoundTripLaws.OrderKept` | `internal/api/activity.go:138-142` | a newest-first list stays newest first |
| `RoundTripLaws.DistanceKept` | `internal/api/activity.go:151-155` | the total distance over the rows is the total over the legs |
| `RoundTripLaws.MergedTimesAddUp` | `internal/api/activity.go:159-162` | for legs of non-negative duration, driving seconds plus the inner gaps are the merged row's end minus its start |
| `RoundTripLaws.MergedSpeedIsWeightedMean` | `internal/api/activity.go:188-191` | average speed times driving seconds is the sum over the legs of speed times duration |
| `RoundTripLaws.MergedSpeedBetween` | `internal/api/activity.go:159-191` | the merged average speed lies between the legs' smallest and largest |
| `RoundTripLaws.MergedRateBetween` | `internal/api/activity.go:163-202` | when every leg over 0.1 mi has both energy and cost or neither, the merged rate lies between the legs' rates |
| `RoundTripLaws.TrailerIsJoin` | `internal/api/activity.go:208-226` | the merged trailer flag is a join of the flags of any two parts of the chain, in either order |
| `RoundTripLaws.TrailerOrderFree` | `internal/api/activity.go:208-226` | it does not depend on the order of the legs |
| `Account.ChargeIdempotentIffSettled` | `internal/charges/store.go:309-359` | writing the same charge twice is writing it once if and only if it is not a bill over a confirmed network with another confidence or evidence, nor a new billed row that carries a network state |
| `Account.CellAfter` | `internal/api/data.go:970-1138` | after any writes, a row other than a milestone depends only on what was written at its own key |
| `Account.MilestoneAfter` | `internal/api/user_extras.go:201-212` | a milestone row is the last one put whose vehicle existed by then |
| `Account.VehiclesAfter` | `internal/db/vehicles.go:39-72` | the account's vehicles are those it had and those the writes resolved |
| `Convergence.DrivesReplay` | `internal/drives/store.go:180-209` | writing all the drives of a key once more, in the same order, changes nothing |
| `Convergence.CellsReplay` | `internal/samples/store.go:325` | the same for samples (insert if absent) and the tables overwritten by key |
| `Prices.UndisturbedUnlessOpened` | `internal/charges/store.go:309-359` | whatever charges are put at a key, in whatever variants and whatever follows, replaying them leaves price and network as they were, unless a bill opens a confirmed network for good or a new row starts with a billed network |
| `Convergence.ChargesReplay` | `internal/charges/store.go:309-359` | the same for the charges of a key, bills included, unless a bill opens a confirmed network for good or a new row starts with a billed network |
| `Convergence.ChargeConvergesIff` | `internal/charges/store.go:309-359` | a charge converges from a cut, keys repeated or not, if and only if the five columns of its price and network, folded over the puts at its key, come out alike |
| `Convergence.UnpricedConverges` | `internal/charges/store.go:309-359` | price and network apart, every charge converges from every cut, even in a file that repeats its key |
| `Convergence.MilestoneConvergesIff` | `internal/api/user_extras.go:201-212` | a milestone converges from a cut if and only if, when the writes before the cut create its vehicle, some put of it comes after its vehicle |
| `Convergence.ConvergesIffStable` | `internal/api/data.go:617-630` | cut off after any write and then run in full, a restore ends in exactly the state of one full run if and only if the price and network of every charge put before the cut replay and no milestone came only before its vehicle; any keys may repeat |
| `Convergence.PricesReplayIffSettled` | `internal/charges/store.go:309-359` | for a file whose billed charges are put once, they replay exactly when every bill before the cut is settled in the row it finds |
| `Convergence.OtherRowsConverge` | `internal/api/data.go:970-1138` | drives, samples and the other extra rows converge from every cut, even in a file that repeats keys |
| `RestoreExamples.BillDoesNotConverge` | `internal/charges/store.go:340-345` | a backup with one bill, and an account, on which restoring it twice differs from restoring it once |
| `RestoreExamples.EarlyMilestoneDoesNotConverge` | `internal/api/data.go:400-420` | a backup with a milestone and a sample of one vehicle: restored into a new account the milestone is lost, restored again it is kept |
| `Json.ReadPrint` | `internal/api/data.go:327-331` | reading a printed value gives the value back, whatever follows it |
| `Json.ReadCut` | `internal/api/data.go:994-1011` | a value that reads completely from a cut text reads the same from the whole one |
| `Bundle.Writer.StreamArray` | `internal/api/data.go:348-375` | an array written one element at a time, with its commas, is the printed array |
| `Bundle.WriteBackup` | `internal/api/data.go:376-424` | the hand-written envelope is a well-formed JSON object (RFC 8259, sections 4 and 5) whose keys and values are, in order, exactly the listed ones: version, created_at, user_settings and so on to samples and, where months were reduced, samples_reduced_months |
| `Bundle.ScanPrintedFields` | `internal/api/data.go:970-1138` | whatever the order of its keys, a printed object scans to exactly its keys and the elements of its arrays, in order |
| `Bundle.CutFileScansToPrefix` | `internal/api/data.go:974-1013` | however a file was cut off, what is found in it is a prefix of what the whole file holds, and only a file with its closing brace counts as complete |
| `Restorer.CapReader.Read` | `internal/api/data.go:843-858` | over all reads, what was handed out is the beginning of the stream and no longer than the cap; a read fails exactly when the first cap bytes were handed out, even if that is all there is, and the stream ends without failure only when all of it was handed out and it is shorter than the cap |
| `Restorer.RestoreGate.TimesOk` | `internal/api/data.go:929-939` | lets a row pass exactly when all its times are in the window, and otherwise counts it once |
| `Restorer.RestoreGate.SampleOk` | `internal/api/data.go:941-953` | adds the retention cutoff, counted apart |
| `Restorer.RestoreGate.VehicleOk` | `internal/api/data.go:955-966` | lets a vehicle in exactly when the new vehicles, with it, are at most five |
| `Restorer.Restorer.CheckBatch` | `internal/samples/window.go:46-59` | the counting loop lets a batch pass exactly when its times fall into at most 120 months |
| `Restorer.Restorer.PrepareBatch` | `internal/samples/store.go:421-459` | a checked batch creates its vehicles, each once and in order, up to a row without an id, which fails it |
| `Restorer.Restorer.InsertBulk` | `internal/samples/store.go:283-352` | a batch of more than 120 months is refused before anything is written; another creates its vehicles once each, then writes its rows; a row without a vehicle stops it before any row |
| `Restorer.Restorer.TakeRow` | `internal/api/data.go:1015-1125` | one element is decoded, checked for time, then for its vehicle, then stored, each failure ending the run |
| `Restorer.RestoreStream` | `internal/api/data.go:970-1138` | the token loop, with its gate, batches and counters updated in place, has exactly the specified effect and verdict on any text |
| `RestoreFacts.OnlyTimelyRowsWritten` | `internal/api/data.go:929-1125` | in every run on any file, failed or not, every row written is one of the file's with all its times in the window, and a sample is not older than the retention cutoff, if there is one |
| `RestoreFacts.EveryTimelyRowWritten` | `internal/api/data.go:970-1138` | in an accepted file every such row is written |
| `RestoreFacts.TablesGetDueRows` | `internal/api/data.go:970-1138` | in file order, and each table gets nothing else |
| `RestoreFacts.CountsAreRight` | `internal/api/data.go:929-953` | until a run fails it has counted exactly the drives, charges and samples with a time outside the window and, apart from them, the samples older than the cutoff |
| `RestoreLaws.BatchesTrackSamples` | `internal/api/data.go:1050-1083` | until something fails, the samples flushed and waiting are exactly the admitted ones, in file order |
| `RestoreLaws.WritesTrackRows` | `internal/api/data.go:1006-1138` | until something fails, every table was sent exactly its admitted rows, in file order, except the samples still waiting |
| `Acceptance.NothingWaits` | `internal/api/data.go:1079-1082` | a whole file that fails nowhere leaves no sample in the batch |
| `Acceptance.GateTracksIds` | `internal/api/data.go:955-966` | the vehicles let in are exactly the unowned ones that rows reaching the gate refer to, in whatever order |
| `Acceptance.AcceptedIffSound` | `internal/api/data.go:970-1138` | a file is accepted if and only if it is complete, holds a main array, every element decodes, no session or sample in the window lacks a vehicle, at most five vehicles are new, and no batch of samples spans more than 120 months |
| `Acceptance.RefusedBecause` | `internal/api/data.go:1006-1138` | a file that is not accepted is reported as bad because it ends early or an element does not decode, as too many vehicles, a row without a vehicle, or too many months because what was read up to there has more than five new vehicles, such a session or sample, or a batch of more than 120 months, and as no backup only when it is sound and has no main array |
| `Acceptance.ShortWindowIsNarrow` | `internal/api/data.go:905-939` | as long as the window holds at most 120 months, no batch of any file spans more |
| `Acceptance.EverySampleAccounted` | `internal/api/data.go:907-1083` | every sample is exactly one of written, out of window, past retention; the written ones go out in file order, in batches that end with 2000 samples or with their array, none empty |
| `Acceptance.SamplesAccountedAnyway` | `internal/api/data.go:907-1083` | in every run, failed or not, each sample taken is written, waits in the batch, or is counted out of window or past retention, except one the run stopped at; written and waiting ones are the admitted ones in file order |
| `Acceptance.EveryTableGetsItsRows` | `internal/api/data.go:970-1138` | an accepted run sends every table exactly the file's admitted rows of its kind, in order |
| `Recovery.BackupScans` | `internal/api/data.go:376-424` | the backup's own file scans to the end and holds under each key the rows written for it |
| `Recovery.BackupIsSent` | `internal/api/data.go:347-424` | backup then restore: the file is accepted and every table is sent exactly the rows that were written, in order, when they decode, lie in the window, name at most five new vehicles and no batch spans more than 120 months |
| `AccountRecovery.AccountAfterRestore` | `internal/api/data.go:970-1138` | after any accepted file each row but a milestone is what was there with the admitted rows of its key written over it, in file order |
| `AccountColumns.ColumnsAfterRestore` | `internal/drives/store.go:180-209` | after any accepted file, column by column: a drive has basics and source of the last row to be written of its key, polyline, trailer and its correction of the last that has one, the location flag of the last live one; a charge likewise, its place the user's own if there ever was one, and a price of the user's own or with a confirmed network stays unless a bill opens it; a sample that was there is unchanged; an extra row is the last one |
| `AccountColumns.ColumnsAfterBackup` | `internal/charges/store.go:309-359` | the same of a backup that is restored into any account, a milestone being the backup's when its vehicle is on the account or in a drive or charge of the backup |
| `AccountRecovery.VehiclesAfterRestore` | `internal/db/vehicles.go:39-72` | after any accepted file the vehicles are those of the account and those that its admitted drives, charges and samples belong to; milestones create none |
| `AccountRecovery.RestoreRecoversBackup` | `internal/api/data.go:347-424` | backup, then restore into any account: each row ends as what was there with the backup's rows of its key written over it; a milestone's row changes exactly when its vehicle is on the account or in a drive or charge of the backup |
| `AccountRecovery.FreshRestore` | `internal/api/data.go:347-424` | restored into a new account, a backup leaves at each key exactly the row it was made of, a charge with its user's place, and nothing where the row cannot reach its table |
| `AccountRecovery.FreshRestoreIsExactIff` | `internal/api/data.go:347-424` | a backup restored into a new account gives back exactly the rows it was made of if and only if each charge shows its user's place, each milestone's vehicle has a drive or charge, and the extra tables have their database |
| `KeyOrder.KeyOrderFree` | `internal/api/data.go:968-970` | acceptance and what each table is sent do not depend on the order of the top-level keys, the samples being in the same batches |
| `KeyOrder.PermutedFields` | `internal/api/data.go:968-970` | permuting the fields of an object whose array keys are distinct keeps the rows under each key and the batches of samples |
| `KeyOrder.KeyOrderKeepsRows` | `internal/api/data.go:968-970` | nor does any row of the account but a milestone |
| `RestoreExamples.MilestonesDependOnKeyOrder` | `internal/api/user_extras.go:204-212` | charges then milestones: the milestone is stored; milestones then charges: it is lost |
| `Recovery.CutFileRestoresPrefix` | `internal/api/data.go:974-1013` | restoring a cut-off file writes a prefix of what the whole file writes and is reported as a bad file |
| `Recovery.RunAgain` | `internal/api/data.go:617-630` | a later run on an account with more vehicles sends the same statements, as long as the clock judges every row alike |
| `Recovery.RestoreAfterInterruption` | `internal/api/data.go:617-630` | accepted once, a restore interrupted after any statement and run again with a clock that judges every row alike is accepted, and ends where one full run would have if and only if the cut was stable; any keys may repeat |
| `AccountRecovery.RowAfterInterruption` | `internal/api/data.go:617-630` | whatever the clock of the second run, once it is accepted: a row but a milestone that both clocks judge alike ends as after one full run, a charge if and only if its price and network replay |
| `Gaps.GrantsAreSpaced` | `internal/api/data.go:455-462` | in any history of claims and clears, two grants to one user with no clear between are at least the gap apart, in the database more than the gap |
| `Gaps.GrantedIffSpaced` | `internal/api/data.go:455-462` | a claim is granted if and only if it comes the gap, in the database more than the gap, after every granted claim of its user that was not cleared since; so the first one is, and the first after a clear |
| `Gaps.MemoryWaitIsExact` | `internal/api/data.go:550-557` | in memory the wait told is exact: a retry succeeds if and only if it comes no sooner |
| `Gaps.DatabaseRetryAtHeader` | `internal/api/data.go:580-600` | in the database a retry right at the wait is refused unless under a second was left, while one after the seconds in the response header succeeds |
| `Gaps.MemGaps.Claim` | `internal/api/data.go:550-565` | for one gap and a clock that never goes back, the pruned map answers exactly as one never pruned, and keeps only entries inside the gap |
| `Gaps.PruningShowsWithTwoGaps` | `internal/api/data.go:558-563` | with two different gaps it would not |
| `Gaps.Cooldowns.CoolingDown` | `internal/api/data.go:502-514` | the pruned cooldowns answer exactly as ones never pruned |
| `Gaps.Cooldowns.Begin` | `internal/api/data.go:518-532` | a new cooldown replaces the user's last, and drops only expired ones |
| `Guard.BackupGuard.Acquire` | `internal/api/data.go:477-499` | a request gets in exactly when no cooldown runs, a slot is free, and the gap is over or cannot be checked; a refused one returns its slot and is told the right wait, 30 seconds where no slot is free |
| `Guard.BackupGuard.ForgetWithCooldown` | `internal/api/data.go:516-541` | gives the start back and makes the next attempt wait the cooldown |
| `Guard.GuardIsSafe` | `internal/api/data.go:442-500` | in every interleaving, on every pod, the slots taken are the requests being let in, being refused or running, and never exceed the capacity |
| `Guard.StartsAreSpaced` | `internal/api/data.go:573-600` | in every interleaving over any number of pods, two granted starts of one user with no clear between are at least the gap apart, in the database more than the gap |
| `Guard.GrantStartsRequest` | `internal/api/data.go:486-499` | a claim that the database grants is exactly one that starts its request |
| `Guard.AttemptIsAcquire` | `internal/api/data.go:477-499` | one request run to its end by the steps of the interleaving model is let in, takes its slot and is remembered exactly as `Acquire` promises |
| `AppleRevoke.CarefulRunsLoseNothing` | `internal/api/apple_revoke.go:17-22` | in every run of deletions, purges, retriers, crashes and delays that keeps three rules about the state before each step, a deleted account's token is revoked, queued, expired or dropped as unreadable |
| `AppleRevoke.LossIffBreach` | `internal/api/apple_revoke.go:41-92` | from any guarded state, a step can be followed by careful steps that lose the token if and only if it keeps a new token while a deletion has read the old one, or, with the account gone or a deletion cleared and its token still open, cancels the queued revoke or deletes a row whose token was replaced |
| `AppleRevoke.DeletedOnlyWhenSafe` | `internal/api/data.go:1361-1372` | from a guarded state, as every state of a careful run is, an account goes only by a deletion whose revoke or queueing worked, with its answer heard or lost, and then its token is safe |
| `AppleRevoke.TokensCanBeLost` | `internal/api/inactive_purge.go:303-308` | five runs at whose end a deleted account's token is neither revoked nor queued nor dropped by the limits: a purge beside a deletion, a purge that begins after it, a purge whose own deletion landed without its answer, a sign-in during it, a retrier with a replaced token |
| `AppleRevoke.ClaimsAreSpaced` | `internal/db/account_delete.go:221-245` | on all replicas together, two claims of one queued row are at least its backoff apart |
| `AppleRevoke.BackoffDoubles` | `internal/db/account_delete.go:221-235` | the backoff is 5 minutes at first, doubles with each attempt after the first, and stays at 24 hours |
| `AppleRevoke.RowAges` | `internal/db/account_delete.go:202-218` | however often it is requeued or retried, a row keeps its first failure time, and its attempts and last try only grow |
| `AppleRevoke.ExpiresByTheLimits` | `internal/db/account_delete.go:260-273` | a row expires only 30 days after it was first queued or after 20 attempts |
| `AppleQueue.Choose` | `internal/db/account_delete.go:221-235` | a claim takes due rows, as many as the limit allows, least recently tried first, each once |
| `AppleQueue.Queue.RetryOnce` | `internal/api/apple_revoke.go:130-165` | one pass expires, claims and settles: it claims only rows whose backoff is over, all of them where the limit allows; a row that failed 30 days ago or 20 times goes, a claimed one goes when its token does not open or was revoked and else counts one more attempt, and any other stays as it is |
| `AppleQueue.PassIsProtocol` | `internal/api/apple_revoke.go:130-165` | for its account, a pass is a run of the steps of AppleRevoke |
| `Reprice.ChangesAreChosen` | `cmd/rivolt/reprice.go:156-216` | the changes are exactly those of the rows that pass every filter, one for each |
| `Reprice.Plan` | `cmd/rivolt/reprice.go:151-218` | the row loop collects the changes in order and an outcome for every selected row |
| `Reprice.Unaccounted` | `cmd/rivolt/reprice.go:331-344` | reports exactly the listed ids that would not be re-priced |
| `Reprice.ChosenIffDue` | `cmd/rivolt/reprice.go:134-216` | the chosen rows are exactly the fast charges without a cost source, of the user and ids asked for, that cost nothing or were priced at the home rate, are sessions, and have a station, by detection with enough confidence |
| `Reprice.Charges.Apply` | `cmd/rivolt/reprice.go:274-313` | one transaction: all changes, or the table untouched |
| `Reprice.ApplyExactly` | `cmd/rivolt/reprice.go:279-301` | it succeeds exactly when no listed row is gone or has a cost source, and then changes exactly the listed rows |
| `Reprice.Charges.Restore` | `cmd/rivolt/reprice.go:484-517` | one transaction: every saved row put back, or the table untouched |
| `Reprice.PutExactly` | `cmd/rivolt/reprice.go:484-511` | it succeeds exactly when every saved row is still re-priced, and puts back exactly their pricing |
| `Reprice.RestoreUndoesApply` | `cmd/rivolt/reprice.go:434-511` | after an apply, restoring its backup gives the listed rows their pricing back and leaves every other row and column as it is by then |
| `Reprice.RestoreIsExactUndo` | `cmd/rivolt/reprice.go:434-517` | with nothing written between, that is exactly the original table |
| `Reprice.SecondRestoreChangesNothing` | `cmd/rivolt/reprice.go:434-437` | restoring the same file again changes nothing, whether it aborts or not |
| `Reprice.RestoreRefuses` | `cmd/rivolt/reprice.go:497-511` | once any listed row was restored or given another source, a restore changes nothing |
| `Reprice.LateApplyUndone` | `cmd/rivolt/reprice.go:353-394` | with rows written between backup and apply, the restore still succeeds and puts the listed rows back to their pricing at the backup; it undoes the apply exactly if and only if that pricing had held |
| `Reprice.Run` | `cmd/rivolt/reprice.go:134-315` | whatever others write meanwhile: it is done exactly when all listed ids are chosen, some row is, and no chosen row is gone at the backup or gone or sourced at the apply. Then each chosen row has the station's rate, that rate times its energy as cost, USD, the source of a network estimate, the station's network if it has one, the legacy cost and rate it had at the apply, and by detection the finding's state, confidence and evidence; every other row and column is as before, and the backup puts the chosen rows back. Otherwise nothing is written |
| `ColdRange.Quantile` | `internal/api/cold_range.go:89-105` | the result is a drive's efficiency; drives at or below it carry at least q of the miles, those strictly below carry less |
| `ColdRange.QuantileMonotone` | `internal/api/cold_range.go:89-105` | a larger share never has a smaller quantile, and a list has only one for each share |
| `ColdRange.QuantilePermuted` | `internal/api/cold_range.go:89-105` | it does not depend on the order of the drives |
| `ColdRange.Window` | `internal/api/cold_range.go:70-87` | selects exactly the drives of the narrow window when it has enough, else of the wide one when that has, else none |
| `ColdRange.AvailableIffWide` | `internal/api/cold_range.go:72-87` | a temperature has a band exactly when the wide window meets both minimums |
| `ColdRange.MoreDrivesKeepAvailable` | `internal/api/cold_range.go:72-87` | adding drives never makes an available temperature unavailable |
| `ColdRange.BandFor` | `internal/api/cold_range.go:107-118` | the band counts exactly the drives, and their miles, with a temperature within 4 degrees, or within 7 where those are not 5 drives and 50 miles; its ends are efficiencies of such drives, with a quarter and three quarters of those miles at or below them and less strictly below, and the low end is not above the high one |
| `ColdRange.BandOrderFree` | `internal/api/cold_range.go:72-118` | the band does not depend on the order of the drives nor on how equal efficiencies are sorted |
| `ReauthEmail.SendAfterGrace` | `cmd/rivolt/reauth_email.go:26-52` | one process sends exactly when both reads saw the same raise and it was not shut down between |
| `ReauthEmail.ProcessSends` | `cmd/rivolt/reauth_email.go:26-52` | whatever happens between a process's two reads, the second comes 20 seconds after the first or later, and sends for the raise seen first exactly when that raise still stands; a stopped process sends nothing |
| `ReauthEmail.MailsNeverExceedFirstReads` | `cmd/rivolt/reauth_email.go:19-52` | in every interleaving, the e-mails for a raise are at most the processes whose first read saw it |
| `ReauthEmail.EndedRaiseGetsNoMail` | `cmd/rivolt/reauth_email.go:47-50` | a raise that was cleared, or cleared and raised again, gets no further e-mail |
| `ReauthEmail.OneRaiseAtMostOneMail` | `cmd/rivolt/reauth_email.go:19-22` | if every first read comes before the next change of the flag, no raise gets two e-mails |
| `ReauthEmail.StandingRaiseGetsItsMail` | `cmd/rivolt/reauth_email.go:19-22` | then a raise that stands at its process's second read gets exactly one, any other none, then and later |
| `ReauthEmail.CanGetIffMost` | `cmd/rivolt/reauth_email.go:19-52` | from any state, a raise can come to k e-mails if and only if k is at most those sent and, while it stands, the processes waiting on it and those that have not read yet |
| `ReauthEmail.TwoMailsIffStraggler` | `cmd/rivolt/reauth_email.go:26-34` | when a raise happens it can get two e-mails if and only if the process of an earlier raise has not made its first read |
| `ReauthEmail.LateFirstReadMailsTwice` | `cmd/rivolt/reauth_email.go:27-34` | a run in which a slow first read makes one raise send two e-mails |
| `EcdsaSignature.DerToRaw` | `ios/revoke-runner-dev-certs.py:59-70` | the loop over the two integers computes the specified conversion on any bytes, failing where the script does |
| `EcdsaSignature.RawIffTwoStart` | `ios/revoke-runner-dev-certs.py:59-70` | the script fails exactly when the bytes are not a sequence in which, after its length, one integer starts and another follows it |
| `EcdsaSignature.DerConvertsToFixed` | `ios/revoke-runner-dev-certs.py:59-70` | for all R and S below 2^256, the DER encoding (ITU-T X.690, sections 8.1.3 and 8.3) converts to R and S on 32 big-endian bytes each (RFC 7518, section 3.4) |
| `EcdsaSignature.AnyLengthConverts` | `ios/revoke-runner-dev-certs.py:62` | the same after a length in the long form, of any number of bytes |
| `EcdsaSignature.RawDetermines` | `ios/revoke-runner-dev-certs.py:59-70` | the 64 bytes give R and S back, so distinct pairs give distinct outputs |
| `RunnerCerts.Check` | `ios/revoke-runner-dev-certs.py:208-227` | a suffix, trimmed, without its ellipsis and in upper case, is accepted exactly when it is well formed and matches one certificate, and that one may be revoked |
| `RunnerCerts.NamesIffOnlyEnding` | `ios/revoke-runner-dev-certs.py:202-230` | a suffix names a certificate exactly when, trimmed, without ellipses and in upper case, it is six hexadecimal digits or more, that certificate's serial and no other is some text followed by it, and it is a development certificate created via the API two hours ago or earlier |
| `RunnerCerts.SelectListed` | `ios/revoke-runner-dev-certs.py:202-230` | all or nothing: the certificates chosen are exactly the ones the suffixes name, one each and all different, or none is |
| `AuditPaging.List` | `internal/adminaudit/adminaudit.go:161-229` | at most the limit asked for, 50 unless that is from 1 to 200, and the newest of the rows that match and lie below the cursor; the next cursor is the last row's id when more match, else 0 |
| `AuditPaging.LaterRowsStayAbove` | `internal/adminaudit/adminaudit.go:169-174` | rows with larger ids written after a cursor was handed out never show below it |
| `AuditPaging.WalkShowsAll` | `internal/adminaudit/adminaudit.go:161-229` | with ids visible in order, following the cursor shows every matching row that was there at the start exactly once, newest first, and no other |
| `AuditPaging.WalkLosesNone` | `internal/adminaudit/adminaudit.go:161-229` | in whatever order rows get visible, following the cursor shows every matching row that was there at the start, none twice, newest first, and beside them only rows that were there by the end |

## Left out

- Float rounding, the haversine formula, time zones, gzip, and the lexing and escaping of JSON strings and numbers.
- `sort.SliceStable` is a stable insertion sort and `sort.Slice` any sorted order; neither library is modelled.
- `updated_at` in the upserts; the other columns of a drive or charge row that an upsert always overwrites are one
  value.
- Each sample is its own insert, where the store sends up to 500 in one statement: the model has more points to be cut
  at.
- The progress lines, heartbeats, deadlines and counters of drives, charges and extras shown to the client.
- Vehicle listing that fails when a restore starts: it leaves the gate without owned vehicles, which `Recovery.RunAgain`
  excludes by asking that a later run knows at least as many.
- Recovery.RestoreAfterInterruption: asks that the clock of the second run judges every row as the first did; under
  another clock, `AccountRecovery.RowAfterInterruption` tells every row but a milestone that both judge alike, and
  `Acceptance.AcceptedIffSound` whether the second run is accepted.
- Restorer.Restorer.CheckBatch: the store's own time window, which is wider than the gate's and never fires behind it,
  and the creation of the months' partitions.
- AccountRecovery.RestoreRecoversBackup: asks that every row decodes back and lies in the restoring account's window,
  and that no batch spans more than 120 months; a row outside the window is counted and skipped
  (`Acceptance.EverySampleAccounted`), and `AccountRecovery.AccountAfterRestore` covers it.
- Dbscan.Run: the distance is any symmetric function; a point is always in its own neighbourhood.
- RoundTripLaws.MergedTimesAddUp: only for legs of non-negative duration; the code leaves legs that run backwards out of
  the driving time.
- The place shown for a merged row and the currency labels beside copying the first or last leg's.
- Guard: the 30-second and ten-minute values are constants or parameters; a pod restart frees its slots.
- Times of raises are distinct in `ReauthEmail`; two raises of one user within the clock's resolution are one to the
  code.
- Apple's side beyond "revoked or not", sealing beyond "opens or not", Stripe's and the identity provider's deletion
  steps.
- How re-pricing finds a station, detects a network, or recognises a session: functions of the charge.
- RunnerCerts.SelectListed: trimming and upper-casing are functions; the calls to App Store Connect are left out.
- AuditPaging.WalkShowsAll: asks that ids get visible in order, as `AuditPaging.WalkLosesNone` does not; in both, rows
  are only added meanwhile: the retention purge is not part of the walk.
- HTTP, cookies, rate limits, the web and iOS clients, the recorder, leases, ledger, archives and insights.
