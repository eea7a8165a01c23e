# Verified models of igit's protocols

This project models the parts of igit whose correctness spans several functions, and proves what
they promise for every input, every run or every reachable state.

* **V1 evidence replay.** `Evidence`, `Replay` and `ReplayInvariants` are the event-sourced state
  machine; `InventoryBuild` and `InventoryBuilder` specify and implement the builder;
  `InventoryValidation` is the independent validator, `ValidatorMeaning` what it accepts;
  `OwnerHistory` reads ownership off the log and `BuilderMeetsValidator` connects builder and
  validator. `EventLog` lists the acting events; over them, `Commitment` says what the event
  commitment binds, `LogAcceptance` which logs replay, and `InventoryMeaning` and
  `InventoryContents` what every entry of an inventory says.
* **Suite migration.** `RollingRoot`, `Batching`, `Plan`, `PlanMethods` and `ForkLineage` turn a
  snapshot into a plan and check it; `PlanExists`, `PlanAccepted` and `PlanDetermined` say when there
  is a plan, that it is accepted, and what is free in one that is; `Manifest` turns a plan into
  numbered transactions; `Coordinator` and `ManifestRun` are the contract side, `SuiteImport`,
  `SuiteMeaning` and `BuiltImports` what the seven modules make of it; `Runner` and `BootstrapRuns` are
  the resumable tool with crashes, restarts and late transactions.
* **Bech32 addresses.** `BitGroups` regroups bits, `LinearRegister` is the theory of a linear
  feedback register, `Bech32Checksum`, `Bech32`, `Bech32Distance`, `Bech32Address` and
  `Bech32Methods` are the codec after BIP-173, section "Bech32", `Bech32Known` an address worked out.
* **Replication service.** `RateLimit`, `StateFile`, `Replication`, `ReplicationRuns` and
  `ReplicationBinding`.
* **Git packs.** `PackCoverage` is the protocol of many pushers with stale listings, `PackFetch` the
  indexing of thin packs, `RemoteHelper` the client.
* **Nonces, activity, bytecode.** `Nonce`, `Activity` and `RuntimeTemplate`.

`Order` and `Digits` hold sorting and decimal text. Code that changes things step by step is
modelled by classes and methods with loops, each proved equal to a specification function; the
properties are proved of those functions.

Conventions. Hash functions are parameters: commitment theorems end in "or a collision exists".
The ABI library is an encode/decode pair that round-trips. Signed tokens cannot be forged and
ticket ids are fresh. RPC nodes, Kubo and the disk are parameters that answer arbitrarily. Where
code and documentation differ the code is followed: the settings of the rate limiter
are named per minute, but a sliding minute can see almost twice that (`RateLimit.RateKeptIff`), the
address decoder takes some spellings outside ASCII (`Bech32Address.TwinAccepted`), a fetch of
several branches can meet a thin pack before its bases (`PackFetch.CollectionOrderFails`), a
snapshot with the zero repository id is planned but never imported (`SuiteImport.ZeroIdRefused`),
attributes with NULs can share a committed text (`Commitment.NulAmbiguous`), and owners with a slash
can share a quota (`RateLimit.KeysShared`).

## Model

| member | source | states |
|---|---|---|
| `Digits.DecimalReads` | cli/internal/archivev1/inventory.go:565-588 | the decimal of an event index is non-empty, all digits and reads back as the index |
| `Digits.FixedOrder` | cli/internal/archivev1/inventory.go:909 | fixed-width decimals compare as text exactly as their numbers compare |
| `Digits.ParseIff` | cli/internal/archivev1/inventory.go:603-619 | a report number is read from its decimal, with any zeros in front, if it has 64 bits, and from no other text |
| `Evidence.PositionOrder` | cli/internal/archivev1/inventory.go:904-914 | the zero-padded height/transaction/event text orders entries exactly as the number triples do |
| `Evidence.IdentityInjective` | cli/internal/archivev1/inventory.go:565-588 | a repository identity names one transaction and one event in it |
| `Evidence.HashesPair` | cli/internal/archivev1/inventory.go:426-438 | lower-casing maps the transaction hashes onto the lower-case hashes |
| `ReplayInvariants.FreshIdentity` | cli/internal/archivev1/inventory.go:565-588 | an event never mints an identity that is already taken |
| `ReplayInvariants.CreateKeeps` | cli/internal/archivev1/inventory.go:565-588 | creating a repository keeps every map invariant, loses no alias and precedes all later trail entries |
| `ReplayInvariants.TransferInverse` | cli/internal/archivev1/inventory.go:589-602 | a transfer extends the alias list, keeps it free of repeats and keeps the locator map its exact inverse |
| `ReplayInvariants.TransferKeeps` | cli/internal/archivev1/inventory.go:589-602 | a transfer keeps every map invariant and loses nothing |
| `ReplayInvariants.ModerationKeeps` | cli/internal/archivev1/inventory.go:708-728 | an appended trail entry is complete and later than all earlier ones |
| `ReplayInvariants.UsernamesKeep` | cli/internal/archivev1/inventory.go:664-682 | registering and releasing keep the two username maps mutually inverse |
| `ReplayInvariants.DispatchKeeps` | cli/internal/archivev1/inventory.go:561-706 | every action keeps all invariants and loses nothing |
| `ReplayInvariants.TxKeeps` | cli/internal/archivev1/inventory.go:250-273 | a whole transaction keeps all invariants and stamps what it adds with its own position |
| `ReplayInvariants.LogKeepsInvariant` | cli/internal/archivev1/inventory.go:226-274 | after any prefix of any sorted log the username maps are mutually inverse and the locator map is the exact inverse of all alias lists |
| `ReplayInvariants.LogLosesNothing` | cli/internal/archivev1/inventory.go:589-602 | from any point of the log to any later one, no repository, identity or alias disappears |
| `ReplayInvariants.NoSharing` | cli/internal/archivev1/inventory.go:561-706 | no locator is in two alias lists or twice in one, and no owner holds two usernames |
| `InventoryBuild.HeightsExact` | cli/internal/archivev1/inventory.go:210-277 | on success the block evidence heights are exactly the transaction heights and the cutover |
| `InventoryBuild.SameLog` | cli/internal/archivev1/inventory.go:201-209 | two sorted logs of the same transactions are equal when one of them replays |
| `InventoryBuild.PagingIndependent` | cli/internal/archivev1/inventory.go:182-295 | any reordering or repaging of the evidence fails alike or builds the same inventory, commitment included, up to the source digest |
| `EventLog.ActsIff` | cli/internal/archivev1/inventory.go:550-559 | the events that act: of a contract kind, addressed to the contract under the newer attribute or else the older one, and with an action |
| `EventLog.ActionNamed` | cli/internal/archivev1/inventory.go:564-705 | an event stands for an action exactly when it bears its name |
| `EventLog.SenderIs` | cli/internal/archivev1/inventory.go:297-308 | the sender is the one named by the first message event that names one, and missing exactly when none does |
| `EventLog.LogInduction` | cli/internal/archivev1/inventory.go:226-274 | whatever holds at the start and is kept by each act holds between the replayed state and the acts of the log |
| `Commitment.TextDecides` | cli/internal/archivev1/inventory.go:730-745 | without NULs, the committed text determines position, transaction, action and every attribute |
| `Commitment.CommitmentIs` | cli/internal/archivev1/inventory.go:561-563 | the commitment is the digest chain over the texts of all acting events in order |
| `Commitment.CommitmentBinds` | cli/internal/archivev1/inventory.go:561-563 | two logs without NULs that replay to one commitment have the same acting events, attribute by attribute, or the digest has a collision or a preimage of zero |
| `Commitment.InventoryBinds` | cli/internal/archivev1/inventory.go:182-295 | inventories with one event commitment were built from the same acting events, or the digest is broken |
| `Commitment.NulAmbiguous` | cli/internal/archivev1/inventory.go:730-745 | with NULs in a value, two different sets of attributes have one text |
| `InventoryMeaning.TrailIs` | cli/internal/archivev1/inventory.go:603-662 | the trail is the moderation acts of the log, entry for entry: who, what, which report, where and when |
| `InventoryMeaning.OriginsAre` | cli/internal/archivev1/inventory.go:565-588 | the repositories are the creations and forks of the log, each with its origin, which no transfer changes |
| `InventoryMeaning.SetsMean` | cli/internal/archivev1/inventory.go:603-694 | report numbers, badge recipients and release versions are exactly those the acts name |
| `InventoryMeaning.UsernamesMean` | cli/internal/archivev1/inventory.go:664-682 | a username belongs to whom its last registration names, unless it was released since |
| `LogAcceptance.AdmittedIff` | cli/internal/archivev1/inventory.go:561-728 | an act is applied if and only if it fits the acts before it: new or known locators, report numbers, usernames, and complete fields |
| `LogAcceptance.ReplaysIff` | cli/internal/archivev1/inventory.go:226-274 | a sorted log replays if and only if each transaction is where the evidence shows it, no two share place or hash, successful ones act, and each act fits those before it |
| `InventoryContents.BuiltIff` | cli/internal/archivev1/inventory.go:182-277 | there is an inventory if and only if the source is presented, the pages are one answer to the query, and the log is sound |
| `InventoryContents.InventorySays` | cli/internal/archivev1/inventory.go:182-295 | every record, owner, report, username, badge, release, trail entry, block and header field of an inventory, read off the acting events |
| `InventoryValidation.IsSorted` | cli/internal/archivev1/inventory.go:885-903 | true exactly for a list sorted under the comparison |
| `InventoryValidation.CheckBlocks` | cli/internal/archivev1/inventory.go:865-884 | true exactly for complete blocks at strictly increasing heights with a matching cutover block |
| `InventoryValidation.CheckTrail` | cli/internal/archivev1/inventory.go:904-914 | true exactly for complete entries at strictly increasing positions |
| `InventoryValidation.CheckRepositories` | cli/internal/archivev1/inventory.go:915-933 | true exactly for complete repositories with distinct identities and globally distinct locators |
| `InventoryValidation.CheckReportIds` | cli/internal/archivev1/inventory.go:943-947 | true exactly for non-zero report ids without neighbouring repeats |
| `InventoryValidation.CheckUsernames` | cli/internal/archivev1/inventory.go:948-959 | true exactly for complete entries with distinct names and distinct owners |
| `InventoryValidation.CheckNoRepeat` | cli/internal/archivev1/inventory.go:1023-1030 | true exactly when no entry is blank and no neighbours are equal |
| `InventoryValidation.CheckSorted` | cli/internal/archivev1/inventory.go:885-903 | true exactly when every collection is in canonical order |
| `InventoryValidation.ValidateInventory` | cli/internal/archivev1/inventory.go:834-961 | accepts exactly the inventories that satisfy the declarative validity predicate |
| `BuilderMeetsValidator.BuildMeetsValidator` | cli/internal/archivev1/inventory.go:182-295 | if every transfer names its new owner, whatever the builder returns the validator accepts |
| `BuilderMeetsValidator.BuildValidIff` | cli/internal/archivev1/inventory.go:834-961 | a built inventory is valid if and only if, in the event log, no transfer to the empty owner is the last transfer of its repository, through whichever locator |
| `OwnerHistory.LogTracks` | cli/internal/archivev1/inventory.go:561-602 | after any prefix of any log, the locators, the repositories they name and their owners are what the creations and transfers of the log say |
| `OwnerHistory.OwnerlessIff` | cli/internal/archivev1/inventory.go:589-602 | a repository ends without an owner exactly when its last transfer names none |
| `OwnerHistory.OwnedIff` | cli/internal/archivev1/inventory.go:589-602 | every repository of the replayed state has an owner exactly when no transfer to nobody is the last of its repository |
| `BuilderMeetsValidator.EmptyTransferRejected` | cli/internal/archivev1/inventory.go:589-602 | a concrete log with a transfer to the empty owner that the builder accepts and the validator rejects |
| `ValidatorMeaning.ValidIff` | cli/internal/archivev1/inventory.go:834-961 | the comparisons of neighbours accept exactly the canonical inventories: lists that are ordered sets, tables with one entry per key, no locator twice, a trail in chain order |
| `ValidatorMeaning.OneRendering` | cli/internal/archivev1/inventory.go:885-903 | two accepted inventories that say the same, each list taken as a set, are equal |
| `ValidatorMeaning.CutoverShown` | cli/internal/archivev1/inventory.go:865-884 | an accepted inventory lists one block at the cutover height, with the cutover hash |
| `InventoryBuilder.AddUnique` | cli/internal/archivev1/inventory.go:791-798 | appends only what is not there yet |
| `InventoryBuilder.WriteCanonical` | cli/internal/archivev1/inventory.go:730-745 | writes the canonical event the commitment hashes |
| `InventoryBuilder.Builder.constructor` | cli/internal/archivev1/inventory.go:221-225 | starts from the empty state |
| `InventoryBuilder.Builder.Create` | cli/internal/archivev1/inventory.go:565-588 | the create step, on the object |
| `InventoryBuilder.Builder.Move` | cli/internal/archivev1/inventory.go:589-602 | the transfer step, on the object |
| `InventoryBuilder.Builder.Moderate` | cli/internal/archivev1/inventory.go:708-728 | the trail step, on the object |
| `InventoryBuilder.Builder.Report` | cli/internal/archivev1/inventory.go:603-619 | the report step, on the object |
| `InventoryBuilder.Builder.Continue` | cli/internal/archivev1/inventory.go:620-658 | the three follow-up steps of a report, on the object |
| `InventoryBuilder.Builder.ClaimUsername` | cli/internal/archivev1/inventory.go:664-675 | the registration step, on the object |
| `InventoryBuilder.Builder.DropUsername` | cli/internal/archivev1/inventory.go:676-682 | the release step, on the object |
| `InventoryBuilder.Builder.Award` | cli/internal/archivev1/inventory.go:683-688 | the badge step, on the object |
| `InventoryBuilder.Builder.Publish` | cli/internal/archivev1/inventory.go:689-694 | the release-artifact step, on the object |
| `InventoryBuilder.Builder.Switch` | cli/internal/archivev1/inventory.go:564-705 | the action switch agrees with the state machine on every action and every error |
| `InventoryBuilder.Builder.Apply` | cli/internal/archivev1/inventory.go:561-706 | commitment first, then the action; the new state is the specified one |
| `InventoryBuilder.Builder.ApplyAll` | cli/internal/archivev1/inventory.go:250-273 | the event loop of one transaction |
| `InventoryBuilder.DecodePages` | cli/internal/archivev1/inventory.go:310-379 | the page loop returns exactly the specified transactions or refuses |
| `InventoryBuilder.ReplayLog` | cli/internal/archivev1/inventory.go:226-274 | the transaction loop succeeds exactly when the replay does, with its state and its required blocks |
| `InventoryBuilder.AssembleInventory` | cli/internal/archivev1/inventory.go:747-780 | sorts the maps into the canonical inventory |
| `InventoryBuilder.BuildInventory` | cli/internal/archivev1/inventory.go:182-295 | the imperative builder equals the specification on every evidence pair |
| `RollingRoot.SeedCommits` | cli/internal/suitemigration/codec.go:353-359 | equal seeds mean equal module and snapshot, or a hash collision |
| `RollingRoot.StepCommits` | cli/internal/suitemigration/codec.go:361-369 | equal steps mean equal previous root, module, sequence, count and payload, or a hash collision |
| `RollingRoot.SeedIsNoStep` | cli/internal/suitemigration/codec.go:353-369 | a seed that equals a step exhibits a hash collision |
| `RollingRoot.RootCommits` | cli/internal/suitemigration/codec.go:353-369 | equal roots over any two import sequences, of any lengths, mean equal content or a hash collision |
| `Batching.SplitFaithful` | cli/internal/suitemigration/plan.go:168-206 | the batches give back records and keys in order, are non-empty, within both limits, consecutively numbered and chained |
| `Batching.SplitFailsIff` | cli/internal/suitemigration/plan.go:168-206 | with a size-monotone encoding, batching fails if and only if some single record exceeds the byte limit |
| `Batching.FitPayload` | cli/internal/suitemigration/plan.go:177-191 | the halving loop ends with the specified cut and its payload, or the specified failure |
| `Batching.SplitGroup` | cli/internal/suitemigration/plan.go:168-206 | the batching loop equals the specified split |
| `Batching.ModuleBuilder.Append` | cli/internal/suitemigration/plan.go:168-206 | appends the batches of a group and keeps count and root in step |
| `PlanAccepted.BuiltPlanValid` | cli/internal/suitemigration/plan.go:63-154 | every plan that is built satisfies the independent plan checker |
| `PlanExists.PlanIff` | cli/internal/suitemigration/plan.go:63-206 | with size-monotone codecs, a plan is built if and only if it has a target and every record alone fits into a payload; without a batch size it uses 64 |
| `PlanDetermined.AcceptedDetermined` | cli/internal/suitemigration/plan.go:451-613 | two accepted plans for one target that bring the same records in the same batches are equal in every name, number, payload, hash, root and count |
| `PlanAccepted.ChainIsRoll` | cli/internal/suitemigration/plan.go:523-580 | the chained roots of accepted batches are the rolling root of their imports |
| `PlanAccepted.AcceptedRootsCommit` | cli/internal/suitemigration/plan.go:523-580 | two accepted module plans with one expected root have the same module, snapshot and imports, or the hash is broken |
| `PlanMethods.BuildModule` | cli/internal/suitemigration/plan.go:135-146 | the module loop gives the specified module or fails with it |
| `PlanMethods.Build` | cli/internal/suitemigration/plan.go:63-149 | the builder equals the specified plan, up to its self-check |
| `PlanMethods.BuildChecked` | cli/internal/suitemigration/plan.go:63-154 | the builder with its self-check, which never refuses what was built from an importable snapshot |
| `PlanMethods.IsBatchValid` | cli/internal/suitemigration/plan.go:533-570 | true exactly for a batch within all limits whose payload decodes to its count, kind and hash |
| `PlanMethods.CheckChain` | cli/internal/suitemigration/plan.go:523-580 | true exactly for consecutive, correctly chained batches |
| `PlanMethods.CheckModule` | cli/internal/suitemigration/plan.go:519-583 | true exactly for a valid module plan |
| `PlanMethods.CheckTotals` | cli/internal/suitemigration/plan.go:587-590 | true exactly when the batches hold as many items as the summary counts |
| `PlanMethods.CheckCounts` | cli/internal/suitemigration/plan.go:591-612 | true exactly when every per-kind count matches |
| `PlanMethods.Validate` | cli/internal/suitemigration/plan.go:451-613 | accepts exactly the valid plans |
| `ForkLineage.VisitAcceptsAcyclic` | cli/internal/suitemigration/plan.go:921-945 | the depth-first search accepts exactly the acyclic parent relations, in any iteration order |
| `ForkLineage.DepthStep` | cli/internal/suitemigration/plan.go:224-238 | a fork is one deeper than its parent and a root has depth 0 |
| `ForkLineage.ForkDepth` | cli/internal/suitemigration/plan.go:224-241 | the memoised recursion ends on every accepted lineage and returns the depth |
| `ForkLineage.ParentsFirst` | cli/internal/suitemigration/plan.go:242-247 | in the import order each parent stands strictly before its fork |
| `ForkLineage.OrderedIs` | cli/internal/suitemigration/plan.go:242-247 | the import order is by depth, and within a depth by id |
| `ForkLineage.OrderCanonical` | cli/internal/suitemigration/plan.go:242-247 | the import order depends only on the repositories, not on their listing |
| `ForkLineage.ImportOrder` | cli/internal/suitemigration/plan.go:219-247 | the depth loop and sort give that order: a permutation, parents first, independent of the listing |
| `ForkLineage.Visitor.VisitFork` | cli/internal/suitemigration/plan.go:924-940 | the search over its two mutable maps agrees with the specified one and restores the path |
| `ForkLineage.CheckCycles` | cli/internal/suitemigration/plan.go:941-945 | true exactly for an acyclic relation |
| `ForkLineage.CheckLineage` | cli/internal/suitemigration/plan.go:883-945 | true exactly when ids are present and distinct, parents exist and the lineage is acyclic |
| `Manifest.ManifestComplete` | cli/internal/suitemigration/manifest.go:29-110 | there is a manifest exactly for an accepted plan and a table with one username module; it has the announced length and numbers 0 to n-1 |
| `Manifest.SuiteHasOneUsername` | cli/internal/suitemigration/manifest.go:83-88 | the seven-module table of the suite has exactly one |
| `Manifest.EntryAt` | cli/internal/suitemigration/manifest.go:63-95 | entry r of module m stands at the offset of m plus r |
| `Manifest.ManifestFiled` | cli/internal/suitemigration/manifest.go:42-62 | every transaction is filed under the module and the batch number that its call names |
| `Manifest.Writer.Append` | cli/internal/suitemigration/manifest.go:42-62 | appends one transaction and numbers it by the counter |
| `Manifest.Writer.AppendModule` | cli/internal/suitemigration/manifest.go:64-95 | writes begin, imports, attestation if due, and finalize, in that order |
| `Manifest.WriteManifest` | cli/internal/suitemigration/manifest.go:29-110 | the nested loops give the specified manifest, the closing checks included |
| `Coordinator.LandCoherent` | contracts/evm-v2/src/BootstrapCoordinator.sol:85-182 | any call keeps coordinator and module records equal and modules finalized in the required order |
| `Coordinator.RunKeeps` | contracts/evm-v2/src/BootstrapCoordinator.sol:85-182 | after any calls in any order, every record agrees with the imports that landed: root, count, sequence numbers, limits |
| `Coordinator.ModuleAlone` | contracts/evm-v2/src/suite/SuiteModule.sol:60-124 | a module keeps its books in whatever order calls reach it, without relying on the coordinator |
| `Coordinator.CoordinatorAlone` | contracts/evm-v2/src/BootstrapCoordinator.sol:85-163 | the coordinator keeps its books whatever the modules hold |
| `Coordinator.DirectoryAlone` | contracts/evm-v2/src/BootstrapCoordinator.sol:172-182 | in any state, only a suite whose modules are all finalized is activated |
| `Coordinator.FinalizedIsPlanned` | contracts/evm-v2/src/BootstrapCoordinator.sol:138-163 | a finalized module opened with the root of an accepted plan holds exactly the planned batches, or the hash is broken |
| `ManifestRun.OnlyNextLands` | contracts/evm-v2/src/BootstrapCoordinator.sol:85-163 | apart from the attestation, only one manifest transaction can land in any position |
| `ManifestRun.ManifestLadder` | cli/internal/suitemigration/manifest.go:63-95 | when the modules agree to everything: after the first k transactions, transaction k lands and leads to k+1, and none of the earlier ones lands again |
| `ManifestRun.PrefixLands` | cli/internal/suitemigration/manifest.go:63-95 | sent in order, every prefix of such a manifest lands completely |
| `ManifestRun.StepExact` | contracts/evm-v2/src/BootstrapCoordinator.sol:85-182 | a manifest call lands exactly when its turn has come and the module agrees: a root that is not zero, a payload it takes after all that landed before; then it moves the chain by that step |
| `ManifestRun.StuckStays` | contracts/evm-v2/src/BootstrapCoordinator.sol:106-163 | once a step was refused, no later transaction of the manifest gets past it |
| `ManifestRun.ManifestActivates` | contracts/evm-v2/src/BootstrapCoordinator.sol:172-177 | when the modules agree to everything, the whole manifest ends with an active suite and every module finalized with its root |
| `ManifestRun.ManifestActivatesIff` | contracts/evm-v2/src/BootstrapCoordinator.sol:85-182 | the manifest ends with an active suite if and only if no expected root is zero and each module takes each batch after those before it |
| `ManifestRun.AcceptedPlanActivates` | cli/internal/suitemigration/manifest.go:29-110 | the transactions built from an accepted plan end, on the chain it targets, with an active suite, the roots and the evidence of the plan if and only if no expected root is zero and each module takes each batch after those before it |
| `SuiteImport.StoreAllIff` | contracts/evm-v2/src/modules/RepositoryCore.sol:489-587 | the modules take a stream of records if and only if each is sound and fits what comes before it: after the repository it needs and agreeing with its owner, with an id that is not zero, a key and room of its own, and a status trail after the status and the reports it names |
| `SuiteMeaning.TakenIff` | contracts/evm-v2/src/modules/RepositoryCore.sol:489-587 | the same without the storage: a stream is taken if and only if each record has an entry of its own and room for it, comes after its repository and suits its owner, with new ids that are not zero and traced status trails |
| `SuiteImport.OtherHasHome` | contracts/evm-v2/src/modules/RecoveryModule.sol:176-204 | in a valid snapshot the repository of a record is there and its owner agrees: guardians were configured by the owner, who is no guardian, collaborator or split recipient |
| `SuiteImport.TrailEarlier` | contracts/evm-v2/src/modules/ModerationModule.sol:398-424 | a valid status trail finds its final status and the reports it names imported before it |
| `SuiteImport.ParentsFirstIff` | contracts/evm-v2/src/modules/RepositoryCore.sol:521-549 | of the orders of a valid snapshot, exactly those are taken in which each parent comes before its forks, and only if no repository id is zero |
| `SuiteImport.SnapshotTakenIff` | cli/internal/suitemigration/plan.go:883-1296 | in the order by fork depth, what the snapshot checks establish is all that the seven modules ask for, but for one thing: no repository id may be zero |
| `SuiteImport.ZeroIdRefused` | contracts/evm-v2/src/modules/RepositoryCore.sol:521-527 | a snapshot of one repository with the zero id passes the snapshot checks and is refused by the repository module |
| `BuiltImports.ModuleHolds` | cli/internal/suitemigration/plan.go:135-146 | the payloads of a built module decode to exactly its records, kind after kind |
| `BuiltImports.PlanHolds` | cli/internal/suitemigration/plan.go:63-154 | the payloads of a built plan, in the order they are sent, decode to exactly the records of the snapshot |
| `BuiltImports.EachTakenIff` | contracts/evm-v2/src/suite/SuiteModule.sol:77-108 | the modules take all batches of a plan one by one if and only if they take all its records in one go |
| `BuiltImports.SnapshotTakenIff` | cli/internal/suitemigration/plan.go:219-247 | the modules take every batch of a plan built from a valid snapshot if and only if no repository id is zero |
| `BuiltImports.BuiltPlanActivates` | cli/internal/suitemigration/plan.go:63-154 | the transactions built from the plan of a valid snapshot activate the suite, with the evidence of the snapshot, if and only if no expected root and no repository id is zero |
| `Runner.ReachedShows` | cli/tools/evm-demo-bootstrap/main.go:350-390 | after k transactions the fields the tool reads show exactly the transactions below k |
| `Runner.Concludes` | cli/tools/evm-demo-bootstrap/main.go:274-324 | the verdict on any transaction is right even when the chain moves on between the reads |
| `Runner.AppliedExactly` | cli/tools/evm-demo-bootstrap/main.go:274-324 | after k transactions exactly the indices below k count as applied and none up to k is an error |
| `Runner.ReadingTells` | cli/tools/evm-demo-bootstrap/main.go:274-324 | whatever calls have landed, by anybody, a transaction is found applied exactly when its effect is there, pending exactly when it is not there and due, and otherwise stops the tool |
| `Runner.MisfiledStops` | cli/tools/evm-demo-bootstrap/main.go:350-390 | a module transaction that is not filed under a module of the plan stops the tool |
| `BootstrapRuns.RunDisciplined` | cli/tools/evm-demo-bootstrap/main.go:165-231 | whatever happens on the chain, no process sends a transaction twice or before it found it pending and all earlier ones applied, and one that finds a mismatch before sending stops |
| `BootstrapRuns.RunSafe` | cli/tools/evm-demo-bootstrap/main.go:165-231 | every step of every process and every late transaction keeps the run in order |
| `BootstrapRuns.RunsAreSafe` | cli/tools/evm-demo-bootstrap/main.go:165-231 | the tool on the transactions built from an accepted plan: under any crashes, restarts, overlaps and late transactions effects come once each and in order, nothing is sent early, no process is misled, a process that gets through leaves the suite active with the evidence of the plan, and from every point the bootstrap can still be completed |
| `BitGroups.ThereAndBack` | cli/internal/chain/evm_address.go:101-133 | regrouping wide to narrow with padding and back without gives back every byte string, for all widths up to 8 |
| `BitGroups.BackAndThere` | cli/internal/chain/evm_address.go:101-133 | what is accepted without padding comes back unchanged with padding |
| `BitGroups.ConvertBits` | cli/internal/chain/evm_address.go:101-133 | the shifting loop with its truncating accumulator equals the bit-string specification, errors included |
| `LinearRegister.DifferenceSurvives` | cli/internal/chain/evm_address.go:71-84 | a difference in the register survives any common input of any length |
| `LinearRegister.WindowDecides` | cli/internal/chain/evm_address.go:71-84 | inputs that agree outside a window and reach the same register write the same pattern inside it |
| `Bech32Checksum.PolymodSound` | cli/internal/chain/evm_address.go:71-84 | the round is linear over exclusive-or |
| `Bech32Checksum.FeedKernel` | cli/internal/chain/evm_address.go:71-84 | the zero-input round sends only 0 to 0, so it is injective |
| `Bech32Checksum.ClosingDecides` | cli/internal/chain/evm_address.go:86-99 | exactly one six-symbol suffix leads a given register to 1 |
| `Bech32.SuffixVerifies` | cli/internal/chain/evm_address.go:86-99 | a six-symbol suffix verifies if and only if it is the computed checksum, for any length |
| `Bech32.SpanDetected` | cli/internal/chain/evm_address.go:97-99 | two symbol strings that verify and agree outside six consecutive places are equal |
| `Bech32.IndexOfChar` | cli/internal/chain/evm_address.go:8 | every symbol is found at its own place in the character set |
| `Bech32Address.DecodeEncode` | cli/internal/chain/evm_address.go:10-57 | decoding the encoding of any 20-byte payload returns it |
| `Bech32Address.CanonicalIffAscii` | cli/internal/chain/evm_address.go:10-57 | an accepted string is the encoding of its payload if and only if it is ASCII |
| `Bech32Address.DamageNoticed` | cli/internal/chain/evm_address.go:10-42 | no two different accepted ASCII addresses agree outside six consecutive characters; a single substitution is the smallest case |
| `Bech32Address.ThreeWrongNoticed` | cli/internal/chain/evm_address.go:10-42 | two different accepted ASCII addresses differ in at least four characters, wherever these are |
| `Bech32Distance.TimesFeeds` | cli/internal/chain/evm_address.go:71-84 | the checksum round is linear over the field of 32 elements |
| `Bech32Distance.MarkTells` | cli/internal/chain/evm_address.go:71-84 | what a symbol makes of the register has, for every symbol but 0, the same quotients of register symbols as 1 has at the same place |
| `Bech32Distance.NoThreeCancel` | cli/internal/chain/evm_address.go:71-84 | no three symbols at different places of an address cancel in the register unless all are 0 |
| `Bech32Distance.ThreeDetected` | cli/internal/chain/evm_address.go:97-99 | two symbol strings that verify and agree but for three places less than 38 apart are equal |
| `Bech32Address.TwinAccepted` | cli/internal/chain/evm_address.go:24-30 | outside ASCII, writing two zero symbols as one two-byte character is accepted for the same payload |
| `Bech32Address.ZeroAddressHasTwin` | cli/internal/chain/evm_address.go:24-30 | the zero address has such a second spelling |
| `Bech32Known.KnownAddress` | web/src/features/settings/Settings.tsx:19 | a wallet that the web client lists under both forms: its bytes are printed as its address |
| `Bech32Methods.Round` | cli/internal/chain/evm_address.go:75-82 | the loop over the five generators is the linear round |
| `Bech32Methods.PolymodLoop` | cli/internal/chain/evm_address.go:71-84 | the checksum loop is the register shift |
| `Bech32Methods.ChecksumLoop` | cli/internal/chain/evm_address.go:86-95 | the symbol loop gives the specified checksum |
| `Bech32Methods.EncodeAddress` | cli/internal/chain/evm_address.go:44-57 | the printer equals its specification |
| `Bech32Methods.ReadValues` | cli/internal/chain/evm_address.go:22-30 | the array filled by byte offset equals the specified symbols |
| `Bech32Methods.DecodeAddress` | cli/internal/chain/evm_address.go:10-42 | the parser equals its specification on every string |
| `RateLimit.RunGroups` | cli/cmd/igit-replicationd/main.go:347-366 | the admissions of one key fall into windows at least a minute apart, each within the limits |
| `RateLimit.AnyMinute` | cli/cmd/igit-replicationd/main.go:347-366 | no span shorter than a minute sees more admissions than `MostCount` or more bytes than `MostBytes`, which the limits determine |
| `RateLimit.CountIsMet` | cli/cmd/igit-replicationd/main.go:347-366 | for all limits a run that reaches the bound on admissions |
| `RateLimit.BytesAreMet` | cli/cmd/igit-replicationd/main.go:347-366 | for all limits a run that reaches the bound on bytes |
| `RateLimit.RateKeptIff` | cli/cmd/igit-replicationd/main.go:347-366 | every sliding minute of every run keeps the configured rate if and only if 2 min(rate, bytes per minute) - 1 is no more than the rate |
| `RateLimit.BytesKeptIff` | cli/cmd/igit-replicationd/main.go:347-366 | every sliding minute of every run keeps the configured bytes if and only if one full window and what another holds after its first admission fit into them |
| `RateLimit.KeyInjective` | cli/cmd/igit-replicationd/main.go:353 | subjects without a bar and owners without a slash have a window of their own for each repository |
| `RateLimit.KeysShared` | cli/cmd/igit-replicationd/main.go:353 | a slash in the owner lets two repositories share one window |
| `StateFile.RecordReadBack` | cli/cmd/igit-replicationd/main.go:414-441 | a clean record appended at a line boundary is exactly what a restart reads back |
| `StateFile.RecordSurvivesIff` | cli/cmd/igit-replicationd/main.go:414-441 | whatever the fields hold, a restart reads back exactly the record if and only if the CID has neither tab nor newline and the lines of a broken tail say nothing new |
| `StateFile.ForgedTicket` | cli/cmd/igit-replicationd/main.go:414-441 | a newline in the ref name makes a restart know a ticket that was never recorded |
| `StateFile.TornRecordIff` | cli/cmd/igit-replicationd/main.go:430-441 | after a torn write the next record is known to a restart if and only if the torn line is empty, holds that ticket and CID already, or is completed to them by the ticket |
| `StateFile.TornRestart` | cli/cmd/igit-replicationd/main.go:414-441 | of a torn write itself a restart knows nothing, the ticket with a wrong CID, or the record, depending on whether it ends in the ticket, in the CID or beyond |
| `StateFile.LoadState` | cli/cmd/igit-replicationd/main.go:414-429 | the line loop equals the specified reading |
| `Replication.Service.constructor` | cli/cmd/igit-replicationd/main.go:86-97 | starts with empty windows, what the file says and what is pinned |
| `Replication.Service.Allow` | cli/cmd/igit-replicationd/main.go:347-366 | charges its own key or refuses, and leaves every other key alone |
| `Replication.Service.IssueAuthorization` | cli/cmd/igit-replicationd/main.go:113-153 | status, ticket and charged quota for every request, in the order of the checks |
| `Replication.Service.Record` | cli/cmd/igit-replicationd/main.go:430-441 | disk first, memory only after the write succeeded |
| `Replication.Service.ReplicateRequest` | cli/cmd/igit-replicationd/main.go:155-224 | status, record, file and pins for every token, request and outcome of pin, verification, unpin and write |
| `ReplicationRuns.NextKeepsIff` | cli/cmd/igit-replicationd/main.go:155-224 | each event keeps the record sound if and only if it is careful: the text it completes in the file says only what memory knows and names the ticket, and the line a restart finds unfinished names only an issued ticket |
| `ReplicationRuns.RunKeeps` | cli/cmd/igit-replicationd/main.go:113-241 | over every run of careful events with restarts, whatever failed writes leave and fields contain, the file holds every recorded ticket and memory knows only issued ones |
| `ReplicationRuns.CarefulIffReadable` | cli/cmd/igit-replicationd/main.go:430-441 | for a ticket without tab or newline, a completed write is careful if and only if the unfinished line before it is readable |
| `ReplicationRuns.UnfinishedIsCareful` | cli/cmd/igit-replicationd/main.go:430-441 | a write that fails before completing a line is careful |
| `ReplicationRuns.TornThenRestart` | cli/cmd/igit-replicationd/main.go:155-224 | a torn write and a restart: the ticket is answered with a conflict if and only if the write stopped inside its CID, as recorded if and only if it got past it |
| `ReplicationRuns.TornThenRetry` | cli/cmd/igit-replicationd/main.go:155-224 | a torn write, a successful retry and a restart: the ticket is answered as recorded if and only if the torn line is readable, with a conflict if and only if it goes past the ticket and is not |
| `ReplicationRuns.PinsKeptIff` | cli/cmd/igit-replicationd/main.go:197-224 | each event keeps all recorded CIDs pinned if and only if it is not a failed verification of a recorded CID with a successful unpin |
| `ReplicationRuns.WrongDigestUnpins` | cli/cmd/igit-replicationd/main.go:197-216 | another ticket for a recorded CID, with a wrong digest, unpins it |
| `ReplicationRuns.RecordedWithinQuota` | cli/cmd/igit-replicationd/main.go:113-241 | over every careful run, per key, recorded bytes never exceed admitted bytes; no ticket is recorded twice and each as it was issued |
| `ReplicationRuns.RetryIsIdempotent` | cli/cmd/igit-replicationd/main.go:169-178 | after every careful run a recorded ticket that still authorizes the request gets the idempotent answer and changes nothing; after a restart if and only if the unfinished last line does not give it another CID |
| `ReplicationRuns.NeverConflict` | cli/cmd/igit-replicationd/main.go:169-191 | over every careful run an issued ticket is never answered with a conflict |
| `ReplicationRuns.QuotaAnyMinute` | cli/cmd/igit-replicationd/main.go:347-366 | without restarts and on a clock that does not go back, the sliding-minute bound holds for every key |
| `ReplicationBinding.TicketBinds` | cli/cmd/igit-replicationd/main.go:113-241 | an issued ticket authorizes exactly the requests with its content, place, digest and size, until it expires: in 900 seconds, or earlier if asked for |
| `ReplicationBinding.IssueAnswers` | cli/cmd/igit-replicationd/main.go:113-153 | a ticket is issued if and only if the request is complete, the quota admits it and the expiry lies ahead; then exactly the window of its own key was charged |
| `ReplicationBinding.Answers` | cli/cmd/igit-replicationd/main.go:155-224 | what each answer to a replication request means for memory, file and pins |
| `ReplicationBinding.DepositsFulfil` | cli/cmd/igit-replicationd/main.go:155-224 | over every run, each success pins content of the digest and length of its ticket before it expired and writes the line of that ticket, every field of it |
| `ReplicationBinding.PinnedWithinQuota` | cli/cmd/igit-replicationd/main.go:113-224 | over every careful run, the bytes read back of what was pinned for a key stay within the bytes admitted for it |
| `ReplicationBinding.FileIsTickets` | cli/cmd/igit-replicationd/main.go:430-441 | if failed writes leave nothing behind, the file is, restarts included, exactly the lines of the recorded tickets in order |
| `PackCoverage.UpdateGrows` | contracts/evm-v2/src/modules/RepositoryCore.sol:277-296 | an unforced update adds exactly the sent addresses to its ref, sets its tip and touches no other ref |
| `PackCoverage.UpdateIff` | contracts/evm-v2/src/modules/RepositoryCore.sol:254-296 | the registry takes an update if and only if it brings 1 to 128 addresses, expects the tip or is forced, and there is room for the ref and for the addresses that are new |
| `PackCoverage.UpdateBounded` | contracts/evm-v2/src/modules/RepositoryCore.sol:254-296 | updates keep the registry within 1024 refs and 128 addresses each |
| `PackCoverage.PushCoversIff` | cli/internal/remote/helper.go:312-425 | an accepted unforced push leaves its tip covered if and only if it sent the whole history or everything it left out is listed, or in the list it sent again |
| `PackCoverage.PushCompleteIff` | cli/internal/remote/helper.go:327-369 | it leaves its ref complete from its own list if and only if it sent the whole history or everything it left out is in that list, or in the one it sent again |
| `PackCoverage.CreationCompleteIff` | cli/internal/remote/helper.go:347-369 | a new ref is complete if and only if it brings no new objects or shares no history with a listed commit that is present locally |
| `PackCoverage.ForceIsComplete` | cli/internal/remote/helper.go:327-345 | a forced push uploads a pack without outside delta bases and leaves its ref complete from that pack |
| `PackCoverage.CompleteStays` | contracts/evm-v2/src/modules/RepositoryCore.sol:254-320 | a complete ref stays complete while others are pushed to or deleted |
| `PackCoverage.DeletionSoundIff` | contracts/evm-v2/src/modules/RepositoryCore.sol:303-320 | a deletion keeps the registry and every cached listing covered if and only if what only its list holds is needed by neither |
| `PackCoverage.ForceSoundIff` | contracts/evm-v2/src/modules/RepositoryCore.sol:277-296 | a forced push keeps the registry and every cached listing covered if and only if what only the replaced list holds, and not the history of its own tip, is needed by neither |
| `PackCoverage.NextKeepsIff` | contracts/evm-v2/src/modules/RepositoryCore.sol:254-320 | each listing, push or deletion keeps registry and listings covered if and only if it is careful, which creations and unforced updates always are |
| `PackCoverage.RunKeeps` | cli/internal/remote/helper.go:312-425 | over every run of careful events, by any clients with stale listings, the listed packs cover every tip and every cached listing |
| `PackCoverage.DeletionUncovers` | contracts/evm-v2/src/modules/RepositoryCore.sol:303-320 | a branch on top of another is uncovered by deleting the other |
| `PackCoverage.StaleListingUncovers` | contracts/evm-v2/src/modules/RepositoryCore.sol:303-320 | deleting a branch nobody needs lets a client that still lists it push on top of it, uncovered |
| `PackFetch.NeededIs` | cli/internal/remote/helper.go:192-218 | the collected addresses are exactly those of all requested refs, each once |
| `PackFetch.FetchIff` | cli/internal/gitio/gitio.go:58-90 | indexing packs in an order succeeds if and only if each finds its delta bases present, earlier or in itself, and then brings exactly their objects |
| `PackFetch.FetchAllComplete` | cli/internal/remote/helper.go:180-232 | fetching all refs of any listing, however stale, succeeds if and only if each pack finds its bases in the order of collection, and then brings the whole history of every tip |
| `PackFetch.UploadOrderIndexes` | cli/internal/remote/helper.go:218-232 | the packs of any listing, indexed in the order of upload, always find their bases and bring that history |
| `PackFetch.CollectionOrderFails` | cli/internal/remote/helper.go:192-232 | a run of ordinary pushes after which fetching all refs fails in the order of collection, and works in the order of upload |
| `PackFetch.OneBranchFetches` | cli/internal/remote/helper.go:192-232 | while all pushes go to one branch, fetching it from any listing always succeeds |
| `RemoteHelper.Helper.List` | cli/internal/remote/helper.go:122-150 | the cache is the last entry of each listed name whatever it held before, every entry and a listed default branch are announced in order, and a failed command changes nothing |
| `RemoteHelper.ListingIsRegistry` | cli/internal/remote/helper.go:136-140 | a listing of the registry is cached as the registry itself |
| `RemoteHelper.CollectIsNeeded` | cli/internal/remote/helper.go:192-218 | for listed refs the collected addresses are those of the listing, so that what is proved of a fetch holds for the client |
| `RemoteHelper.Helper.CollectUris` | cli/internal/remote/helper.go:192-218 | the nested loops collect the specified addresses or fail on an unknown ref |
| `RemoteHelper.Helper.FetchBatch` | cli/internal/remote/helper.go:180-232 | collects and then indexes one pack after the other, ending at the first ref, download or index failure |
| `RemoteHelper.Helper.PushOne` | cli/internal/remote/helper.go:312-425 | what is uploaded and what the registry is told, for deletion, every pack branch and every failing step |
| `RemoteHelper.NoPinNoMove` | cli/internal/remote/helper.go:363-418 | no ref moves unless packing, upload, connection, authorization and pin all succeeded, or it sends its listed addresses again |
| `RemoteHelper.CurrentPushLands` | cli/internal/remote/helper.go:312-425 | from a current listing, when every step succeeds and there is room, a push lands and its ref points to the commit |
| `RemoteHelper.LineReads` | cli/internal/remote/helper.go:139 | git reads tip and name back from an announced line |
| `RemoteHelper.HeadIff` | cli/internal/remote/helper.go:142-147 | HEAD is announced exactly when its branch is among the listed refs |
| `Nonce.Manager.ReserveNonce` | cli/internal/chain/evm_nonce.go:41-86 | new cache and reservation for every cache state and node answer |
| `Nonce.Manager.InvalidateReservation` | cli/internal/chain/evm_nonce.go:108-115 | only the cache the reservation came from |
| `Nonce.Manager.Transact` | cli/internal/chain/evm_transactor.go:145-201 | every exit but success invalidates, success keeps the cache |
| `Nonce.RunSound` | cli/internal/chain/evm_nonce.go:41-115 | under every interleaving the cache continues what was handed out or is newer |
| `Nonce.NoSharedNonce` | cli/internal/chain/evm_nonce.go:41-115 | no two reservations share generation and nonce; within a generation nonces are consecutive for one account |
| `Nonce.GenerationStartsAtPending` | cli/internal/chain/evm_nonce.go:57-73 | the first nonce of a generation is the pending count of the node |
| `Nonce.ConsecutiveIff` | cli/internal/chain/evm_nonce.go:41-115 | the next reservation of an account has the next nonce, whatever the node would answer, if and only if since the last one no reservation of its generation failed, no other account got at the cache and the nonces did not run out; otherwise the node is asked |
| `Nonce.StaleCannotInvalidate` | cli/internal/chain/evm_nonce.go:108-115 | a reservation changes the cache if and only if it is of the current valid generation |
| `Nonce.FailureForcesSync` | cli/internal/chain/evm_transactor.go:145-153 | after a failed transaction every later reservation comes from a newer synchronisation |
| `Activity.SpansPartition` | web/src/lib/activity.ts:191-201 | the spans partition the window newest first, all but the oldest exactly as wide as the range limit allows |
| `Activity.DescendingSpans` | web/src/lib/activity.ts:191-201 | the loop yields exactly these spans |
| `Activity.HalvingExact` | web/src/lib/activity.ts:165-185 | a span that is read at all is read exactly, however often it was halved |
| `Activity.ReadIff` | web/src/lib/activity.ts:165-185 | a span is read if and only if around each of its blocks a part after at most six halvings is answered and every wider one refused as too wide |
| `Activity.CapIff` | web/src/lib/activity.ts:165-201 | with a provider that caps spans, exactly those up to 64 times the cap are read, and every span of the scan if and only if the cap is at least 157 blocks |
| `Activity.CapSuffices` | web/src/lib/activity.ts:214-260 | then the scan fails only over a lookup it still needs |
| `Activity.SimpleLimit` | web/src/lib/activity.ts:256 | the limit bounds the output, any limit below 1 stands for 1, and nothing is cut off below it |
| `Activity.OrderLogsIs` | web/src/lib/activity.ts:203-212 | newest first, and exactly the last unremoved log of each transaction |
| `Activity.OrderLogsLoop` | web/src/lib/activity.ts:203-212 | the map and sort give that order |
| `Activity.ViewJoin` | web/src/lib/activity.ts:203-212 | the view of a window is the view of its newer part followed by that of its older part |
| `Activity.ScanSpan` | web/src/lib/activity.ts:230-257 | the inner loop skips nothing, describes in order and stops exactly at the limit |
| `Activity.ContractActivity` | web/src/lib/activity.ts:214-260 | returns what one wide query gives, deduplicated, newest first, filtered and cut off at the limit; fails if and only if a span or a lookup fails and what is newer does not fill the output |
| `RuntimeTemplate.ValidateReferences` | cli/internal/suitedeploy/artifact.go:264-291 | accepts exactly the non-empty sets of in-range, disjoint 32-byte references with non-blank, non-empty groups |
| `RuntimeTemplate.ValidIff` | cli/internal/suitedeploy/artifact.go:264-291 | references are accepted if and only if there are some, each with a key, of 32 bytes and within the code, and together they claim as many bytes as they cover, so none twice |
| `RuntimeTemplate.InstantiateIff` | cli/internal/suitedeploy/deploy.go:438-471 | at disjoint places, code equals the filled-in template if and only if each place reads its value and nothing differs elsewhere |
| `RuntimeTemplate.ExplanationUnique` | cli/internal/suitedeploy/deploy.go:438-471 | at most one assignment explains the observed code |
| `RuntimeTemplate.ReadImmutable` | cli/internal/suitedeploy/deploy.go:449-463 | the common value of all references of an immutable, or none exists |
| `RuntimeTemplate.CompareRuntimeTemplate` | cli/internal/suitedeploy/deploy.go:438-471 | succeeds if and only if some assignment of one 32-byte value per immutable turns the template into the code, and returns the only one |

## Left out

- HTTP, JSON, base64, signatures and command lines: requests, tokens and pages appear decoded.
- The ABI encoders: the modules decode what the planner's codecs encode.
- SuiteImport.StoreAllIff: checks of a record's own fields (lengths, characters, addresses, timestamps, thresholds, shares, the shape of a report) are one flag, because planner and modules check them alike; the zero repository id, where they differ, is modelled. Locators and other hashed keys are compared as what is hashed; reserved locators are empty during bootstrap.
- InventoryBuilder.DecodePages: does not model RPC envelopes, base64 attributes and the digest of the page bytes, because pages appear decoded.
- PlanAccepted.BuiltPlanValid: assumes that keys are not blank, that codecs round-trip and that root and evidence are not zero, which snapshot validation and the ABI library provide.
- PlanMethods.Build: does not validate the snapshot's field formats, because records are opaque to the planner.
- PlanMethods.BuildChecked: likewise.
- PlanMethods.Validate: does not model the schema string, the source digests, the contract policy and the escrow record of the plan header, because they are compared with constants and formats only.
- ForkLineage.CheckLineage: does not model the formats of id, owner and name checked in the same loops; `SuiteImport.SnapshotTakenIff` states what the relational checks give.
- Manifest.WriteManifest: does not model the calldata bytes, the event topic, the target and the zero value, because the ABI is a parameter.
- `ValidateCalldataManifest`: it rebuilds the manifest and compares, so it adds nothing to `Manifest.WriteManifest`.
- Hexadecimal text of hashes, payloads and immutable values.
- Transactions with more than 2^32 events, plans with 2^64 batches, and runs of 2^64 nonce steps, where the fixed-width counters would wrap; the overflow of the username claim deadline.
- Commitment.CommitmentBinds: for events without NUL characters, because the committed text separates its parts by them (`Commitment.NulAmbiguous`).
- PlanExists.PlanIff: for codecs whose payloads do not shrink when records are added, which the ABI provides.
- BootstrapRuns.RunsAreSafe: for manifests without import batches, because the tool refuses the import phase; the operator account sends nothing else, and each restart names a new evidence file, since the tool refuses an existing one.
- ReplicationRuns.QuotaAnyMinute: for one process on a clock that does not go back, because a restart forgets the windows.
- PackFetch.UploadOrderIndexes: for creations and unforced updates, because a deletion or a forced push may drop the packs that hold the bases of others.
- A listing of refs is one read of the registry, although the chain is asked for pages.
- Activity.ContractActivity: the lookup of a transaction, its receipt and its block is one deterministic function of the log, and a query answers the same span alike.
- Invalid UTF-8 in the bech32 decoder, and the library's lower-casing, which is a parameter that leaves plain lower-case text alone.
- Module registration, ownership and moderation policy in the contracts; the gas, role and profile tables; user interface, keystores and tunnels.
- `cli/tools/evm-activate-suite/main.go`, whose expected roots chain across modules, and the unfinished suite operator.
