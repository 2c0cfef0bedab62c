# FarCast: key hand-over, encrypted storage and cost accounting, verified

A Dafny model of the parts of FarCast that hold state which must not go wrong, with
proofs of what they promise.

**DataSphere keys.** A keyring holds ordered key lists and named, non-overlapping
scopes. `Keys`, `Keyring`, `Merge`, `MergeLaws`, `Rotation`, `RotationLaws` and
`Growth` model validity, routing, merging, rotation and choosing active keys, each
loop proved against a specification and each specification against what it means.
`ScopeNames` and `Identity` are the name and identity grammar.

**The keyholder.** `KeyMaterial` and `Vault` put key bytes in arrays that are shared on
copy and zeroed in place; `Ownership` proves that in any interleaving of bundles,
pushes, seals and requests no array has two holders, so the process behaves as if keys
were values (`VaultSpec`). `Bundle`, `Control` and `SealSafety` are the control surface
and its safety over runs; `Envelope` and `EnvelopeLaws` the single-use envelope a bundle
travels in; `Fleet` the rotation discipline over many replicas, on records of what was
written, with facts taken from what replicas report, `FleetRotates` that a rotation can
always be finished under it, and `Keeper` the check an unattended device makes before it
re-seeds one.

**Storage.** `Crypto` is an interface of five functions with ideal laws (and a model of
them, so they are not contradictory). `Tokens`, `Blob`, `Rekey`, `Store` and
`StoreRefines` model stored names, blob bytes, header rewriting and the store, and prove
that several stores on one bucket are several plain maps. `Wire`, `DataPath` and
`DataSafety` compose the request handler with the application's error mapping.
`FleetSpaces`, `FleetWorld`, `FleetSteps` and `FleetStore` put the fleet and the bucket's
bytes together: through rotations, hand-overs, re-seeds, seals and restarts every answer is
the one plain maps would give.

**TechnoCore cost.** `LedgerSpec`, `Ledger`, `CostGuard`, `Limit`, `Snapshot`,
`LedgerRuns` and `Checkpoint` model the per-hour ledger, its correction by
confirmations, its checkpoint and the limit it is compared with; `Adapt` and
`KernelAdapt` the resize decision and its cooldown.

`Basics`, `Paths` and `Sums` are shared vocabulary; `Examples` is a small keyring that
failing cases are shown with.

## Conventions

- A Go string is a sequence of bytes. Instants and durations are integers in
  nanoseconds, amounts are reals.
- A method guarded by a lock is one atomic step. Random draws and clock readings are
  parameters.
- Where the code updates objects, arrays or maps in place the model is a class or an
  array-changing method, proved equal to a function on values; the laws are lemmas about
  that function.
- A scope's own keys are two lists: the code reuses the keyring type for them, with
  no scopes inside, as its parser and constructors guarantee.

## Where the code and its documentation differ

The model follows the code.

- `technocore/adapt/adapt.go:142-145` says a recommendation is never below the floors.
  One that acts is, exactly when one bounded step from the current value cannot reach the
  floor; one that holds is, exactly when the current value already is
  (`Adapt.RecommendBelowFloorIff`, and `Adapt.ActsBelowFloor` for a case).
- `datasphere/store.go:144-150` says a missing mirror falls back to the object's header.
  The bounded header read is too short for buffered objects named with 1023 or 1024
  bytes, whose name is then not recovered (`StoreRefines.FallbackRecoversIff`, and
  `StoreRefines.LongNameIsLost` for a case).
- `datasphere/keyholder/identity.go:121-130` says an application reaches exactly one
  scope, its own. The comparison is by name, and a name that can be split at a second
  dash is shared: namespace `c` with application `a-b`, and `b-c` with `a`
  (`Identities.ReachIsOwnIffNoInnerDash`, `Identities.DashedNeighboursReachEachOther`).
- `datasphere/keyring.go:275-283` says that every object stays readable throughout a
  rotation. A read in flight is the exception: it keeps the keys it was admitted with, and
  fails with an unknown key exactly when the object has by then been wrapped under another
  (`FleetSteps.FlightReads`, and `FleetSpaces.RotationOvertakesRead` for a case).
- `datasphere/keyring.go:399-404` describes merging a scope present on both sides. Sharing
  any name key lets the merge through, but objects named under the incoming active name
  key stay found only when it is the live one too (`Growth.IncomingGrowsIff`). No
  operation gives a scope a second name key, so only a keyring file written otherwise
  reaches the case (`Growth.MergeCanHideIncoming`).

## Model

| member | source | states |
|---|---|---|
| Ledgers.Ledger.constructor | technocore/cost/ledger.go:123-133 | a new ledger is empty over its half-open period |
| Ledgers.Ledger.New | technocore/cost/ledger.go:123-133 | no ledger exists for a period that ends at or before its start |
| Ledgers.Ledger.Accrue | technocore/cost/ledger.go:147-162 | the cursor loop leaves the buckets the recursive spread describes and adds the whole charge to the application; a non-positive rate or interval does nothing |
| Ledgers.Ledger.ExpectedIn | technocore/cost/ledger.go:264-273 | the loop over buckets returns the sum of those beginning in the window |
| Ledgers.Ledger.Confirm | technocore/cost/ledger.go:169-201 | refusals in order leave the ledger alone; a window is sorted in, and a disagreement recorded exactly when a billed figure is outside half to twice a positive model |
| Ledgers.Ledger.Weigh | technocore/cost/ledger.go:204-248 | one confirmed window counts at the provider's figure inside the clamp and at the larger of the two outside, and calibrates inside it, as `CostGuard.TotalIs` gives a meaning |
| Ledgers.Ledger.Accrued | technocore/cost/ledger.go:204-248 | the loop over confirmations returns the figures that `CostGuard.TotalIs` and `CostGuard.TotalAtLeastBilled` give a meaning |
| LedgerSpec.SpreadIsExact | technocore/cost/ledger.go:147-162 | each hour bucket grows by exactly rate times its overlap with the billed interval, and no other bucket moves |
| LedgerSpec.SpreadConserves | technocore/cost/ledger.go:147-162 | the buckets together grow by exactly rate times the interval |
| LedgerSpec.SpreadSplits | technocore/cost/ledger.go:138-146 | billing an interval gives the same buckets as billing it in two parts |
| LedgerSpec.HourKeyTruncates | technocore/cost/ledger.go:275 | before 1970 an instant falls in the bucket that begins with its second or less than an hour after it |
| LedgerSpec.ClampIsOnTheRatio | technocore/cost/ledger.go:37-45 | the clamp without division is the ratio of billed to modelled kept in half to two |
| CostGuard.AccrueKeepsBalanced | technocore/cost/ledger.go:147-162 | total bucket spend stays equal to total per-application spend |
| CostGuard.ConfirmKeepsSound | technocore/cost/ledger.go:169-201 | windows stay non-empty, sorted, disjoint and inside the period |
| CostGuard.TakenIff | technocore/cost/ledger.go:169-201 | a window is taken exactly when its figure is not negative, it is not empty, lies inside the period and shares no instant with one taken before, each refusal for its own reason; taken, it joins the others, and a bill outside half to twice a positive model goes on record |
| CostGuard.CoveredAtMostRaw | technocore/cost/ledger.go:204-248 | confirmed windows never cover more than the period's model, so the clamp at zero never fires |
| CostGuard.CalibrationIsClamped | technocore/cost/ledger.go:42-45 | calibration lies in half to two on every sound ledger |
| CostGuard.TotalAtLeastHalf | technocore/cost/ledger.go:204-248 | the total is at least half the raw model, whatever was confirmed |
| CostGuard.TotalAtMostTwice | technocore/cost/ledger.go:204-248 | with no window above the clamp the total is at most twice the raw model |
| CostGuard.TotalIs | technocore/cost/ledger.go:204-248 | what an instance is said to cost: the bills, or the model where a bill is under half of it, and what no window covers at the ratio of the agreeing bills to their model, or as modelled while there are none |
| CostGuard.TotalAtLeastBilled | technocore/cost/ledger.go:217-224 | whatever has been billed is in the total, surprising or not |
| CostGuard.NextToNothingChangesNothing | technocore/cost/ledger.go:37-45 | a feed that bills under half of the model for everything it confirms leaves the total as modelled |
| CostGuard.FreshSpendRaisesTotal | technocore/cost/ledger.go:204-273 | spend outside every confirmed window and inside the period raises the total by exactly calibration times the amount |
| LedgerRuns.ReachableInvariant | technocore/cost/ledger.go:123-201 | every ledger reached by accruals, confirmations and restarts is sound and balanced |
| LedgerRuns.GuardCannotBeSwitchedOff | technocore/cost/limit.go:65-81 | over every run, a model at or above twice the limit assesses as reached, whatever was confirmed |
| LedgerRuns.BilledTripsGuard | technocore/cost/limit.go:65-81 | over every run, once the confirmed bills add up to the limit the guard acts, whatever the model says |
| LedgerRuns.GuardDoesNotTripEarly | technocore/cost/limit.go:65-81 | over every run without a window above the clamp, a model below half the limit does not |
| LedgerRuns.FactorTwoIsExact | technocore/cost/limit.go:65-81 | two is the exact factor: all runs with this raw model trip the guard if and only if it is at least twice the limit |
| Limits.ActsIffReached | technocore/cost/limit.go:65-95 | enforcement acts exactly when the total has reached a positive limit |
| Limits.ProjectionNeverActs | technocore/cost/limit.go:82-95 | a projection is a warning, given exactly when the burn reaches the limit before the period ends |
| Limits.WarnsInMoney | technocore/cost/limit.go:65-81 | the warnings begin at half, three quarters and nine tenths of a positive limit and at the limit itself, and there are none without a limit |
| Limits.ProjectsTheRate | technocore/cost/limit.go:82-95 | the projection is the total and the rate over what is left of the period, and the instant named is the last nanosecond at which the limit is not passed at this rate |
| Snapshots.TakeSnapshot | technocore/cost/snapshot.go:39-55 | the loops save every bucket, application and confirmation |
| Snapshots.CopyHours | technocore/cost/snapshot.go:64-94 | hours are restored from their texts, and a text that is not an hour or a negative figure is refused |
| Snapshots.CopyApps | technocore/cost/snapshot.go:64-94 | applications are restored, and a negative figure is refused |
| Snapshots.Restore | technocore/cost/snapshot.go:64-94 | restore is a validated replay: it succeeds exactly when the specification does, with its ledger |
| Snapshots.RestoredIsSound | technocore/cost/snapshot.go:57-94 | whatever a checkpoint holds, a ledger restored from it is sound |
| Snapshots.RestoresIff | technocore/cost/snapshot.go:57-94 | a checkpoint is restored exactly when it has the version and a period, hours that are hours, no negative figure, and non-empty windows inside the period no two of which share an instant, in any order |
| Snapshots.RestoredIsWhatWasKept | technocore/cost/snapshot.go:57-94 | what is restored has the checkpoint's hours, applications and windows and no others |
| Snapshots.RestoreInvertsSnapshot | technocore/cost/snapshot.go:39-94 | restoring what a sound ledger saved succeeds and gives the same ledger but for the recorded discrepancies, which are recomputed |
| Snapshots.RestartKeepsFigures | technocore/cost/snapshot.go:39-94 | confirmed, expected, total and calibration survive save and restore |
| Checkpoints.Reconciler.Save | technocore/kernel/checkpoint.go:205-212 | a checkpoint holds the ledger, the last reading and the observation |
| Checkpoints.Reconciler.Restore | technocore/kernel/checkpoint.go:182-202 | an absent, unreadable or other-period checkpoint leaves the books alone, a good one replaces them |
| Checkpoints.Reconciler.Tick | technocore/kernel/reconcile.go:414-423 | a tick charges every workload for the billable interval |
| Checkpoints.BucketsExact | technocore/kernel/reconcile.go:414-423 | one tick grows each bucket by the whole burn rate times its overlap |
| Checkpoints.AppsExact | technocore/kernel/reconcile.go:414-423 | and each application by its own rate times the interval |
| Checkpoints.TickBills | technocore/kernel/reconcile.go:493-515 | nothing on the first tick, and then each hour grows by the burn rate over its part of the time since the last tick, or since the period began if that is later, and each application by its rate over all of it |
| Checkpoints.RestoreOutcomes | technocore/kernel/checkpoint.go:171-202 | no checkpoint is a first run, one of another period is left alone, one that cannot be read or does not replay is a failure and never a fresh start, and only a good one changes the books |
| Checkpoints.TicksJoin | technocore/kernel/reconcile.go:503-515 | two ticks over an unchanged set charge what one tick over the whole interval charges |
| Checkpoints.TicksAreOneTick | technocore/kernel/reconcile.go:493-515 | any partition of an interval into ticks bills what one tick bills |
| Checkpoints.RestartGapBilledAtOnce | technocore/kernel/checkpoint.go:37-41 | a kernel saved, lost and restored at the end of a gap agrees with one that never stopped |
| Adapt.ActApproaches | technocore/adapt/adapt.go:146-206 | acting moves both reservations weakly toward the targets that `Adapt.ActCoversUse` says are what was used with its headroom, without passing them, and strictly shrinks the summed distance |
| Adapt.UnclampedActIsFinal | technocore/adapt/adapt.go:219-239 | an act no bound clamped is followed by a hold |
| Adapt.RecommendsIff | technocore/adapt/adapt.go:146-206 | the whole recommendation: it acts exactly when the reservation is known, both resources were read 120 times, what a step names is outside the deadband for one of them and the bill moves by a cent; acting it names that, holding it names what is reserved and why |
| Adapt.FiguresExist | technocore/adapt/adapt.go:208-232 | every known reservation has exactly one set of such figures: targets that are the least to give what was used its headroom above the floor, and the bounded step towards them |
| Adapt.ActCoversUse | technocore/adapt/adapt.go:208-217 | an act no bound clamped reserves the least that gives what was used its headroom, and one that was clamped lies between the reservation and that |
| Adapt.UnsetTakesDefault | technocore/adapt/adapt.go:82-102 | headrooms of 1.3 and 1.5, a deadband of a quarter, a step of two and floors of 50 and 64 unless set to something sensible |
| Adapt.RecommendBelowFloorIff | technocore/adapt/adapt.go:142-145 | a recommendation that acts is below a floor exactly when a bounded step from the current value cannot reach it, one that holds exactly when the current value already is |
| Adapt.ActsBelowFloor | technocore/adapt/adapt.go:142-145 | a case that acts below the documented floor: ten millicores become twenty, under a floor of fifty |
| Adapt.ActsBoundedByDistance | technocore/adapt/adapt.go:146-206 | with the observation fixed, resizing stops |
| Adapt.ActsAreLogarithmic | technocore/adapt/adapt.go:219-230 | with an integral step of at least two, acts number at most the power of the step that covers the larger current-to-target ratio |
| KernelAdapt.ClusterState.Adapt | technocore/kernel/adapt.go:71-231 | one pass: advice against the cluster as found, for measured applications of one container, then each act applied, one refusal not stopping the rest |
| KernelAdapt.ResizesIff | technocore/kernel/adapt.go:71-180 | a pass resizes exactly the applications of one container that were measured, whose recommendation acts, that have rested for the cooldown, six hours unless set, and whose change saves or can be afforded, when the API server keeps it |
| KernelAdapt.AdviceIs | technocore/kernel/adapt.go:71-132 | what is said of a workload, acting or not: nothing unless it is an application, why it cannot be advised, or the recommendation, which when held names what is reserved |
| KernelAdapt.VetoedWhy | technocore/kernel/adapt.go:135-180 | a workload that has not rested is left alone for what remains of its rest, one that has only because of the limit |
| KernelAdapt.PassLeaves | technocore/kernel/adapt.go:199-231 | a resized workload is at what the API server kept, stamped with the second of the pass and otherwise as it was, every other as it was, and exactly the resized are on record |
| KernelAdapt.PassAdds | technocore/kernel/adapt.go:71-132 | a pass adds at most one resize per workload, each past the cooldown of the stamp it found |
| KernelAdapt.OnlyApplications | technocore/kernel/adapt.go:83-112 | a pass leaves every workload alone that is not an application of one container |
| KernelAdapt.CooldownHolds | technocore/kernel/adapt.go:161-180 | over every run with restarts, deployments and changes by hand that keep the stamp, two resizes of a workload are more than the cooldown less one second apart |
| KernelAdapt.SecondIsLost | technocore/kernel/reconcile.go:205-215 | the second dropped by the stamp's format is really lost |
| KernelAdapt.GrowthStaysUnderLimit | technocore/kernel/adapt.go:135-159 | a growth applied, taken alone, neither stands at the limit nor is projected past it |
| ScopeNames.ParseInvertsCompose | datasphere/scope.go:35-83 | a prefix parses to a pair exactly when it is that pair's prefix, with or without the final separator, and both are single segments |
| ScopeNames.OverlapIffCommonKey | datasphere/scope.go:367-373 | two prefixes overlap exactly when some key starts with both |
| ScopeNames.AppPrefixesDisjoint | datasphere/scope.go:35-37 | prefixes of slash-free pairs overlap only when the pairs are equal |
| ScopeNames.CanMintIff | datasphere/scope.go:86-92 | a scope is minted for a pair exactly when its name composes and neither half is empty or contains a slash |
| ScopeNames.NameIsOwnIffNoInnerDash | datasphere/scope.go:55-92 | among applications a scope can be minted for, a name belongs to one exactly when its namespace has no dash past its first character and its application none before its last |
| ScopeNames.DashedNamesCollide | datasphere/scope.go:55-92 | two applications that each have a scope, disjoint in keys, under one scope name |
| ScopeNames.SecretsSubtree | datasphere/scope.go:151-163 | a secret is anything strictly below the scope's secrets prefix |
| ScopeNames.LayoutIsSpelled | datasphere/scope.go:28-67 | an application's prefix and scope name letter by letter, and when a composed name is a valid one |
| Paths.Utf8Iff | datasphere/internal/crypto/crypto.go:165-190 | text is valid exactly when it is some Unicode characters, each written in its own bytes |
| Paths.KeyIsNames | datasphere/internal/crypto/crypto.go:165-190 | a logical key is one to thirty non-empty names joined by separators, valid text of at most 1024 bytes |
| Identities.ParseInvertsUri | datasphere/keyholder/identity.go:81-101 | a URI parses exactly when it is the URI of a well-formed identity of this instance, which it then gives back |
| Identities.UrisAreSpelled | datasphere/keyholder/identity.go:60-101 | the URI of each role letter by letter |
| Identities.OneInstance | datasphere/keyholder/identity.go:72-84 | a URI is an identity for at most one instance with a slash-free name |
| Identities.FirstIdentity | datasphere/keyholder/identity.go:192-202 | the identity taken is what the first URI of the leaf that parses gives, and none is taken exactly when no URI parses |
| Identities.AdmitsWhoeverIsServed | datasphere/keyholder/identity.go:103-141 | the listener admits every leaf whose identity may reach any scope; for a leaf with one URI it admits exactly the identities that are not keepers |
| Identities.ReachesOneScope | datasphere/keyholder/identity.go:121-141 | of the scopes held together an application reaches at most one, the one its own names compose |
| Identities.ReachIsOwnIffNoInnerDash | datasphere/keyholder/identity.go:121-141 | a well-formed application reaches no other application's scope exactly when its scope name splits in one place only, or its names compose none |
| Identities.DashedNeighboursReachEachOther | datasphere/keyholder/identity.go:121-141 | two well-formed applications whose leaves reach each other's scope |
| Keys.Lookup | datasphere/keyring.go:551-560 | a key id resolves exactly when an entry carries it |
| Keys.LookupIgnoresOrder | datasphere/keyring.go:551-560 | with distinct ids the answer does not depend on the order of the list |
| Keys.OwnerIsUnique | datasphere/keyring.go:213-220 | at most one scope owns a key, and routing returns it |
| Keys.RoutingIgnoresOrder | datasphere/keyring.go:213-220 | routing does not depend on the order scopes are held in |
| Keyrings.AddScopeIffStillValid | datasphere/keyring.go:222-242 | a scope is refused exactly when adding it would make the keyring invalid |
| Keyrings.ValidIff | datasphere/keyring.go:479-527 | a keyring is valid exactly when no list is empty, every key is 32 bytes under an id of its own, every scope name is a label of up to 63 and every prefix a logical key and a separator, no two scopes share a name, and no logical key lies in two |
| Keyrings.CheckEntries | datasphere/keyring.go:515-527 | the loop with its seen set decides full-length keys and distinct ids |
| Keyrings.CheckScope | datasphere/scope.go:237-245 | decides whether a scope is usable |
| Keyrings.CheckKeyring | datasphere/keyring.go:481-513 | the loops decide validity: usable lists and scopes, distinct names, no overlap |
| Keyrings.FindOwner | datasphere/keyring.go:213-220 | the loop returns the first owning scope |
| Keyrings.TryAddScope | datasphere/keyring.go:227-242 | the loop adds the scope or refuses it, as specified |
| Merging.MergeEntryLists | datasphere/keyring.go:459-477 | the loop with its held map is the fold: append what is new, refuse a second value for an id |
| Merging.SharesAnEntry | datasphere/keyring.go:448-457 | the nested loops decide whether two lists have an id in common |
| Merging.MergeOneScope | datasphere/keyring.go:411-443 | one incoming scope: appended, merged under its name, or refused |
| Merging.MergeScopeLists | datasphere/keyring.go:405-445 | the loop with its index map is the fold over incoming scopes |
| Merging.MergeKeyrings | datasphere/keyring.go:383-397 | names, keys and scopes merged in turn |
| MergeLaws.EntriesMerge | datasphere/keyring.go:459-477 | two valid lists merge exactly when they agree on every common id, into exactly their union with the live list as a prefix |
| MergeLaws.ScopesMerge | datasphere/keyring.go:399-445 | two valid scope lists merge exactly when every pair is compatible, and each name then stands for the union of what it stood for |
| MergeLaws.MergeIsUnion | datasphere/keyring.go:369-397 | a merge succeeds exactly when nothing contradicts, is valid, and holds exactly the union with live lists and order kept |
| MergeLaws.MergeSucceedsBothWays | datasphere/keyring.go:369-397 | a merge succeeds in one order exactly when it succeeds in the other |
| MergeLaws.MergeTwiceIsOnce | datasphere/keyring.go:369-397 | importing the same keyring again changes nothing |
| MergeLaws.MergeWithItself | datasphere/keyring.go:369-397 | merging a keyring with itself gives it back |
| Rotations.RotateScopeKeks | datasphere/keyring.go:284-311 | the loop prepends a minted key to every scope and reports which replaced which, or refuses |
| Rotations.ActivateOne | datasphere/keyring.go:339-356 | one scope's key is found and moved to the front, or refused |
| Rotations.SetScopeActive | datasphere/keyring.go:327-367 | the loop with its pending map activates each named scope once and refuses a name or key that is not there |
| Rotations.RotationSucceedsIff | datasphere/keyring.go:266-311 | a rotation of a valid keyring fails only on a minted key of wrong length or a repeated id, and stays valid |
| RotationLaws.MovePromotes | datasphere/keyring.go:345-352 | moving a key to the front is a permutation keeping the others' order and every look-up |
| RotationLaws.ActivationSucceedsIff | datasphere/keyring.go:313-367 | activation is refused exactly when a named scope or key is missing; named scopes have their key promoted, all else is unchanged |
| RotationLaws.HoldThenActivate | datasphere/keyring.go:320-326 | activating the reported previous keys leaves each scope on its old key with the new one held, and activating the reported new keys gives back the rotated keyring |
| Growth.AddScopeGrows | datasphere/keyring.go:227-242 | adding a scope keeps every routing, active name key and look-up |
| Growth.RotateGrows | datasphere/keyring.go:275-283 | so does a rotation |
| Growth.ActivationGrowsBothWays | datasphere/keyring.go:313-319 | choosing active keys neither gains nor loses anything |
| Growth.MergeGrows | datasphere/keyring.go:369-378 | so does a merge, for the live side |
| Growth.IncomingGrowsIff | datasphere/keyring.go:422-433 | the incoming side's objects stay found exactly where its active name key is the live side's |
| Growth.MergeCanHideIncoming | datasphere/keyring.go:399-404 | two valid keyrings that merge although the incoming side's objects are then looked for under another name key |
| Growth.GrowthKeepsReading | datasphere/keyring.go:213-220 | under growth a key is still routed to its scope, found under the same name key and unwrapped by every id that resolved |
| KeyMaterial.Clear | datasphere/scope.go:261-268 | every byte of an array becomes zero |
| KeyMaterial.Zero | datasphere/scope.go:261-268 | every key array of a scope is overwritten with zeros, wherever else it is shared |
| KeyMaterial.Zeroed | datasphere/scope.go:303-327 | the loops decide whether every key is present and all zeros |
| KeyMaterial.CloneEntries | datasphere/scope.go:289-295 | same entries, same bytes, arrays nobody else has |
| KeyMaterial.Clone | datasphere/scope.go:280-287 | a clone is worth what the original is, over new arrays |
| Vaults.Bundle.Zero | datasphere/bundle.go:109-115 | a wiped bundle holds nothing and every array it shared is zeros |
| Vaults.Vault.constructor | datasphere/keyholder/vault.go:166-175 | a vault starts sealed, with nothing, at generation zero |
| Vaults.Vault.Drop | datasphere/keyholder/vault.go:387-392 | every array the vault held becomes zeros and none is held |
| Vaults.Vault.CloneScopes | datasphere/keyholder/vault.go:297-303 | the new set is built over new arrays, or refused when one scope is unusable, before anything is dropped |
| Vaults.Vault.Unseal | datasphere/keyholder/vault.go:252-311 | refusals in order change nothing; a repeated generation changes nothing; otherwise the bundle's scopes are installed over new arrays and the old ones wiped |
| Vaults.Vault.Seal | datasphere/keyholder/vault.go:320-333 | the material is wiped and the vault left as `SealSafety.OperatorSeals` says: held with the reason when a hold was asked for, sealed as after a restart otherwise, at the same generation |
| Vaults.Vault.ReleaseHold | datasphere/keyholder/vault.go:341-350 | a hold becomes a restart seal and nothing else changes |
| Vaults.Vault.Scope | datasphere/keyholder/vault.go:372-384 | the owning scope as the caller's own copy, or sealed, or out of scope |
| Vaults.Vault.ReportKeys | datasphere/keyholder/vault.go:209-235 | the loop builds the report that `VaultSpec.ReportTells` gives a meaning |
| VaultSpec.ReportTells | datasphere/keyholder/vault.go:209-235 | a name is in the report exactly when a scope of that name is held, with exactly the ids its keys resolve by, the active one first |
| Ownership.NeighboursKept | datasphere/keyholder/vault.go:352-371 | when one holder's arrays change, every other holder still has exactly what it was given |
| Ownership.ParseBundle | datasphere/keyholder/server.go:240-247 | a bundle off the wire has bytes of its own |
| Ownership.PushBundle | datasphere/keyholder/vault.go:292-306 | installing clones takes nothing from the bundle or from a request in flight |
| Ownership.WipeBundle | datasphere/keyholder/server.go:247 | wiping a bundle after its push touches neither the vault nor a request |
| Ownership.AdmitRequest | datasphere/keyholder/vault.go:360-384 | a request is admitted with arrays of its own |
| Ownership.UseRequest | datasphere/keyholder/server.go:302-303 | a request in use sees exactly the keys it was admitted with |
| Ownership.EndRequest | datasphere/keyholder/server.go:302 | a request's arrays are wiped when it ends, and no others |
| Ownership.Run | datasphere/keyholder/vault.go:352-392 | over any interleaving from a fresh process, sharing, copying and wiping bytes cannot be told from handling keys as values |
| Ownership.HoldersAreDisjoint | datasphere/scope.go:270-295 | arrays of the vault, of each request and of each bundle are pairwise disjoint |
| Ownership.UsesWhatItWasAdmittedWith | datasphere/keyholder/vault.go:366-371 | through any steps but its own end, a request uses what the vault held when it was admitted |
| Ownership.DeliveredIsUsed | datasphere/keyholder/vault.go:252-392 | a bundle arrives, is pushed, a request is admitted, the bundle is wiped and the vault sealed: the request still uses what was delivered, until it ends and nobody has it |
| Bundles.Assemble | datasphere/bundle.go:53-79 | the nested loops take scopes in one by one and refuse a blank instance, an unusable scope, a repeated name or an overlap |
| Bundles.BundledIff | datasphere/bundle.go:45-79 | a bundle can be made exactly of an instance that is not only white space and usable scopes, no two of one name and no key inside two, and is then what it was made of |
| Bundles.BlankIff | datasphere/bundle.go:54 | a name is blank exactly when it is nothing but Unicode white space |
| Control.Server.Push | datasphere/keyholder/server.go:195-259 | identity, intent, role, content type, envelope and bundle are checked in this order before the vault is asked, and every array a bundle was parsed into is zeros on return |
| Control.Server.Deliver | datasphere/keyholder/server.go:242-254 | the parsed bundle is offered to the vault; whatever comes of it, every array it was parsed into is new and is zeros on return, and the vault has what the specification says |
| Control.Server.Seal | datasphere/keyholder/server.go:261-271 | an operator's seal is done as asked (`SealSafety.OperatorSeals`), anybody else's is refused (`SealSafety.OthersMayNot`) |
| Control.Server.ReleaseHold | datasphere/keyholder/server.go:273-281 | only a caller that may change the seal releases a hold |
| SealSafety.FailureChangesNothing | datasphere/keyholder/server.go:195-281 | a control request that fails leaves the vault as it was |
| SealSafety.KeysEnterByPush | datasphere/keyholder/vault.go:252-311 | keys enter only by a push the caller's role may make, of a usable bundle for this instance, not behind and newer than what is being served |
| SealSafety.InstallsIff | datasphere/keyholder/vault.go:252-311 | exactly which requests put keys in, in terms of the leaf's role, the words of its claim, the phase, the instance and the generation, and the state they leave |
| SealSafety.PushRefusedWhy | datasphere/keyholder/vault.go:252-291 | each refusal of a readable push for exactly its reason, and pushing again what is being served is none |
| SealSafety.PushTurnedAwayWhy | datasphere/keyholder/server.go:195-241 | why any other push is turned away before the vault is asked, each failure for exactly its reason |
| SealSafety.OperatorSeals | datasphere/keyholder/vault.go:320-333 | an operator's seal stops the vault from whatever state, drops its keys, keeps its generation, and is a hold with its reason exactly when one was asked for |
| SealSafety.OperatorReleases | datasphere/keyholder/vault.go:341-350 | an operator's release turns a hold, and only a hold, into a restart's seal |
| SealSafety.OthersMayNot | datasphere/keyholder/identity.go:163-167 | nobody else seals or releases anything |
| SealSafety.HoldIsTheOperators | datasphere/keyholder/identity.go:143-167 | only an operator's request changes a held vault |
| SealSafety.HoldIsLeftDeliberately | datasphere/keyholder/vault.go:278-281 | a hold is left only by an operator's seal, release, or unseal claimed as a person's |
| SealSafety.HoldIsPlacedByTheOperator | datasphere/keyholder/identity.go:163-167 | only an operator's request places a hold |
| SealSafety.KeeperOnlyRestores | datasphere/keyholder/identity.go:152-161 | a keeper's request changes anything only by re-seeding a restart-sealed vault |
| SealSafety.HandOverNeverUnseals | datasphere/keyholder/vault.go:265-269 | a hand-over that changes anything found the vault serving and left it serving |
| SealSafety.RunKeeps | datasphere/keyholder/vault.go:154-158 | over any run the generation never decreases, a vault that does not serve holds no scopes, and a hold reason is kept only under a hold |
| SealSafety.HoldSurvives | datasphere/keyholder/vault.go:313-319 | a hold survives, unchanged, any run without an operator's request |
| SealSafety.HoldHolds | datasphere/keyholder/vault.go:313-333 | a hold an operator asks for is placed, and after any run without an operator's request the vault is held exactly so, for that reason |
| SealSafety.HoldEndsByOperator | datasphere/keyholder/vault.go:313-319 | a hold that is gone was ended by an operator's request |
| SealSafety.ServedKeysWereDelivered | datasphere/keyholder/vault.go:292-310 | what serves at the end of a run was there from the start or was installed by a push of the run and untouched since |
| SealSafety.StartsWithNothing | datasphere/keyholder/vault.go:166-175 | a process just started serves nothing until a push installs it, and refuses no generation |
| SealSafety.LaterPushIsNewer | datasphere/keyholder/vault.go:282-290 | of two installing pushes the later is not older, and is newer if the vault served in between |
| Fleet.NextSafe | farsight/cli/internal/cli/storagekeyholder.go:636-660 | every step, pushes and re-seeds under the discipline included, keeps every replica's active keys known everywhere and every object, at rest or pending, readable by the operator |
| Fleet.ScopeJoins | datasphere/keyring.go:222-242 | a scope that may join the operator's keyring joins it, and its keys are at once known to be lacking nowhere |
| Fleet.ImportBrings | datasphere/keyring.go:369-397 | an import that contradicts nothing brings every scope of the other keyring and keeps what there was |
| Fleet.ReplicaStops | datasphere/keyholder/vault.go:313-350 | a restart, a seal and a release leave their replica in the state they should |
| Fleet.ReportShows | farsight/cli/internal/cli/storagekeyholder.go:659-660 | what a poll's report shows of a key is what the replica can unwrap |
| Fleet.SafeReads | datasphere/keyring.go:313-326 | in a safe state each replica that holds an object's scope has the name key it is found under and the key its record is wrapped under |
| Fleet.RecordsStayReadable | datasphere/keyring.go:313-326 | over every run of scopes added, rotations, imports, polls, pushes, re-seeds, writes landing at any time after their admission, rekeys, restarts and seals, each replica has the keys for every write and rekey on record in the scopes it holds |
| Fleet.HoldingClears | farsight/cli/internal/cli/storagekeyholder.go:643-650 | once every serving replica holds what the operator holds, polls establish all that pushing any choice of active keys needs |
| FleetRotates.RotationFinishes | farsight/cli/internal/cli/storagekeyholder.go:627-660 | from any safe state whose active keys no replica lacks, a run of questions and pushes alone brings a rotation in: at its end every replica, whatever it was doing, serves exactly the rotated keyring, and everything is readable |
| FleetRotates.PushOne | farsight/cli/internal/cli/storagekeyholder.go:651-660 | a push that is cleared is taken, whatever the replica was doing, and the replica is then known for every key it was sent |
| FleetRotates.AskForAll | farsight/cli/internal/cli/storagekeyholder.go:635-650 | once every serving replica holds what the operator holds, a run of polls clears a push of any choice of active keys to everyone |
| FleetRotates.SweepRetires | datasphere/keyring.go:275-283 | and then a run of rekeys leaves every object under its scope's active key, so that whoever holds the active keys alone reads everything |
| Fleet.ReseedSafeIff | farsight/cli/internal/keeper/decide.go:176-211 | an outgrown bundle can be put back into a restarted replica without harm exactly when nothing in it is active that another replica might lack and it lacks nothing in use |
| Fleet.ReseedReadsIff | farsight/cli/internal/keeper/decide.go:176-211 | it leaves everything readable for now exactly when it holds, of each scope it has, every key something at rest is wrapped under |
| Fleet.ReseedKeepsKnowledgeIff | farsight/cli/internal/keeper/decide.go:176-211 | it leaves all that was known of the replica true exactly when its report lists every id known there, and its active keys are known everywhere |
| Fleet.EnrolledIsOutgrown | farsight/cli/internal/cli/keeper.go:193-208 | whatever was put into a bundle at any point of a run the operator's keyring has outgrown ever after |
| Fleet.StaleReseedSplits | farsight/cli/internal/keeper/decide.go:208-211 | with no replica serving to check against, a bundle from before a rotation is accepted by a restarted replica, which then cannot read what it wrote |
| Keepers.IndexKeys | farsight/cli/internal/keeper/decide.go:215-222 | the loop indexes a scope's keys by id |
| Keepers.Tabulate | farsight/cli/internal/keeper/decide.go:213-224 | the loops over scopes and keys build the maps the check looks in |
| Keepers.CheckScopeKeys | farsight/cli/internal/keeper/decide.go:234-250 | the loop over a replica's ids decides agreement: every id held, the active one among them, and not an older one |
| Keepers.Mismatch | farsight/cli/internal/keeper/decide.go:212-255 | the loops return the first serving replica that disagrees with the bundle, or none when every one that answered agrees |
| Keepers.AgreesIff | farsight/cli/internal/keeper/decide.go:186-211 | a report agrees exactly when every scope the replica serves is in the bundle under its name, with every key the replica has, writing under one of them that is not older than the replica's |
| Keepers.DecidesIff | farsight/cli/internal/keeper/decide.go:93-122 | exactly when a replica is re-seeded, and each reason for leaving it alone |
| Keepers.AskingShows | farsight/cli/internal/keeper/decide.go:191-195 | asking every replica shows of each active key of a bundle that passed that it is lacking nowhere |
| Keepers.PassedCovers | farsight/cli/internal/keeper/decide.go:186-190 | a bundle that passed, with each of its scopes served somewhere, lacks nothing in use |
| Keepers.KeeperReseeds | farsight/cli/internal/keeper/decide.go:93-122 | when the keeper decides to re-seed, the push is taken, keeps the fleet safe and everything readable, and the next replica may be decided from the same answers |
| Keepers.KeeperPass | farsight/cli/internal/cli/keeper.go:524-560 | a whole pass re-seeds exactly the replicas it decided to, and leaves the fleet safe and everything readable |
| FleetSpaces.WriteThenRead | datasphere/store.go:84-125 | what a replica reads right after another wrote: the data when the record is readable to it, an unknown key when it lacks the wrapping key, its own earlier answer when its name key is another |
| FleetSpaces.RotationOvertakesRead | datasphere/keyring.go:275-283 | a read admitted before a rotation, of an object rewritten after it, is told that the key is unknown |
| FleetSpaces.RekeyThenRead | datasphere/rekey.go:14-22 | a replica with the active key reads after a rekey exactly what the rekeying side read before |
| FleetSpaces.RelByRecords | datasphere/keyring.go:266-279 | any stores that open everything on record serve the same maps |
| FleetSteps.FlightReads | datasphere/keyholder/server.go:296-311 | a request in flight reads what the operator's store would, or, exactly when the object is wrapped under a key it was not given, that the key is unknown |
| FleetSteps.EventKeeps | farsight/cli/internal/cli/storagekeyholder.go:636-660 | every keyring, replica and keeper step, admission, completion and operator operation gets the reply it should and keeps fleet, bucket bytes, maps and requests in flight in step |
| FleetStore.FleetAnswersAsMaps | datasphere/keyring.go:313-326 | over every run from deployment, with installs, admissions and completions in any order, every reply of every replica and of the operator's store is the one plain maps would give, a late read excepted, and absence is said exactly where the map lacks the key |
| FleetStore.OnTimeWhileHeld | datasphere/keyholder/vault.go:360-384 | a read is late only once no replica holds the scope it was admitted with |
| FleetStore.FleetReadsWhatItWrote | datasphere/keyring.go:313-326 | at the end of every run each replica that holds the owning scope reads under its own keys exactly what was last written |
| FleetStore.NothingBlocks | datasphere/keyholder/server.go:296-354 | whatever can be asked for in a world happens and is answered, so runs are not empty of requests |
| FleetStore.OperatorMayIff | farsight/cli/internal/cli/storagekeyholder.go:637-650 | the operator's machine works under the scope that owns the key, and writes or rewraps exactly under an active key known to be lacking nowhere |
| FleetStore.DeploymentIsPossible | datasphere/keyholder/vault.go:166-175 | there is cryptography obeying the laws and a fleet of any size to begin with |
| Crypto.IdealIsPossible | datasphere/internal/crypto/crypto.go:196-200 | the laws the cryptography is assumed to obey have a model with two key spaces |
| Tokens.ComputeTokenPath | datasphere/internal/crypto/name.go:52-66 | the single pass over segments tokenizes exactly each joined prefix |
| Tokens.PathsAreInjective | datasphere/internal/crypto/name.go:40-51 | different keys or different name keys never share a stored path |
| Tokens.PathIsTokens | datasphere/internal/crypto/name.go:36-66 | the stored path of joined names is the joined tokens of each path down to them, under the key derived for tokens |
| Tokens.InfosApart | datasphere/internal/crypto/crypto.go:150-156 | the key that makes tokens is derived for no object's name |
| Tokens.NarrowingIsExact | datasphere/internal/crypto/name.go:68-90 | a narrowed listing covers exactly this key space's keys under the aligned part of the prefix |
| Tokens.NothingIsMissed | datasphere/internal/crypto/name.go:68-90 | no key with the prefix lies outside the listing, on a segment boundary or not |
| Blobs.PaddingIsCanonical | datasphere/internal/crypto/name.go:156-193 | a plaintext reads as a name exactly when it is that name's one encoding |
| Blobs.NameOpens | datasphere/internal/crypto/name.go:98-145 | a sealed name opens to the name it seals, and has between 44 and 1084 bytes |
| Blobs.NameOpensIff | datasphere/internal/crypto/name.go:128-193 | exactly which sealed names open, to what, whoever made them: what was sealed for this stored path under the key derived for it, padded as names are |
| Blobs.LayoutParses | datasphere/internal/crypto/blob.go:243-283 | parsing reads back every field of a laid-out blob |
| Blobs.OpenInvertsSeal | datasphere/internal/crypto/blob.go:69-158 | opening inverts sealing for the holder of the wrapping key, and the mirrored name is the header's |
| Blobs.OpensIff | datasphere/internal/crypto/blob.go:128-158 | exactly which bytes open, to what: whatever a cloud returns, a buffered object opens only as data sealed for this logical key under a data key wrapped for this version and key id; a streamed one as its frames say, within the size limit |
| Blobs.UnknownIff | datasphere/internal/crypto/blob.go:286-299 | an unknown key is told from damage exactly when there is a header that names one that is not held |
| Blobs.WrittenIs | datasphere/internal/crypto/blob.go:69-118 | what a write stores, byte for byte |
| Rekeys.CopyInto | datasphere/rekey.go:66 | the start of the header buffer is overwritten and the rest kept |
| Rekeys.ReadHead | datasphere/rekey.go:81-88 | at most a full header's worth of the stream is read |
| Rekeys.RekeyStream | datasphere/rekey.go:31-77 | the buffer filled, overwritten and spliced before the rest is what the specification uploads |
| Rekeys.PrefixIsSplice | datasphere/internal/crypto/blob.go:200-241 | a rewritten prefix is the old one but for the wrap fields, which wrap the same data key |
| Rekeys.UploadIsSplice | datasphere/rekey.go:54-77 | the upload equals the original but for bytes 5 to 72, for objects shorter or longer than the buffer |
| Rekeys.RekeyKeepsReading | datasphere/rekey.go:14-22 | whoever holds the active key gets from the upload exactly what the old keys gave, plaintext or error |
| Rekeys.RekeyIsIdempotent | datasphere/rekey.go:50-52 | a second rekey changes nothing |
| Rekeys.OtherKeysMayGo | datasphere/internal/crypto/blob.go:181-185 | after a rekey that did not fail the active key alone opens the object as before |
| Stores.Bucket.List | datasphere/types.go:70-72 | a listing returns each object under the stored prefix once |
| Stores.Store.New | datasphere/store.go:54-79 | there is no store over unusable keys |
| Stores.Store.Read | datasphere/store.go:84-94 | the object at the key's token path, opened |
| Stores.Store.Write | datasphere/store.go:104-125 | the object and its mirror replace what was at the key's path |
| Stores.Store.Delete | datasphere/store.go:129-135 | the key's path is emptied, an absent one without error |
| Stores.Store.Rekey | datasphere/rekey.go:31-77 | the stored object is replaced by the spliced one, or left when already current |
| Stores.RekeyTells | datasphere/rekey.go:31-77 | a rekey says whether it moved the object: exactly when its header did not name the active key, which it does afterwards |
| Stores.Store.ListEntries | datasphere/store.go:179-199 | sorted entries for every nameable object with the prefix, and every unnameable one reported |
| Stores.NamingIs | datasphere/store.go:304-343 | a name is the mirror's when that opens, else the header's when that does, else damage when there is no header and another's object when there is one |
| Stores.Sort | datasphere/store.go:197 | sorted by key, and a permutation |
| Stores.LexLeIff | datasphere/store.go:197 | the order is byte order: a beginning comes first, and otherwise the first byte that differs decides |
| StoreRefines.NamesOnlyOwn | datasphere/store.go:304-343 | a store names its own objects and fails on every other key space's |
| StoreRefines.FallbackRecoversIff | datasphere/store.go:304-343 | with the mirror lost the header gives the name exactly for names of at most 1022 bytes |
| StoreRefines.LongNameIsLost | datasphere/store.go:144-150 | a valid key of 1023 bytes, written under any keys, is not recovered once its mirror is lost |
| StoreRefines.WriteStep | datasphere/store.go:104-125 | a write answers and acts as its map's, and leaves every other map alone |
| StoreRefines.ReadStep | datasphere/store.go:84-94 | a read answers with what the map holds, or not found |
| StoreRefines.DeleteStep | datasphere/store.go:129-135 | a delete removes the map's key only |
| StoreRefines.RewrapStep | datasphere/rekey.go:31-77 | a rekey of a stored key succeeds and changes no map |
| StoreRefines.ListStep | datasphere/store.go:136-199 | a listing is the map's keys with the prefix in strict order, clean exactly when the prefix has a complete segment or no other space has objects |
| StoreRefines.Run | datasphere/store.go:84-199 | over any run by several stores on one bucket every answer is the one plain maps would give |
| StoreRefines.RelSurvivesGrowth | datasphere/keyring.go:275-283 | lists under the same name keys that resolve every id the old ones did serve the same maps |
| StoreRefines.Sweep | datasphere/README.md:378-380 | after rekeying every key of a space a store holding only the active key serves it exactly as before |
| Envelopes.Challenger.ExpireAll | datasphere/keyholder/envelope.go:263-271 | the loop drops exactly the challenges past their deadline, from both maps |
| Envelopes.Challenger.IssueChallenge | datasphere/keyholder/envelope.go:110-134 | what is handed out is a challenge that can be sealed to and that the process then opens (`EnvelopeLaws.IssuedOpens`); at most 64 outstanding, both maps with equal keys |
| Envelopes.Challenger.OpenEnvelope | datasphere/keyholder/envelope.go:141-188 | the challenge is consumed before anything else is decided, and the result is the specification's |
| EnvelopeLaws.OpenInvertsSeal | datasphere/keyholder/envelope.go:190-229 | an envelope sealed to a live challenge opens in time to the bundle for the same instance |
| EnvelopeLaws.IssuedIff | datasphere/keyholder/envelope.go:110-134 | a challenge is issued exactly while fewer than 64 are live, over the values drawn for it and the process's key |
| EnvelopeLaws.IssuedOpens | datasphere/keyholder/envelope.go:110-229 | what a process hands out can be sealed to, and for two minutes the state it is left in opens the envelope |
| EnvelopeLaws.DeliveredOverRuns | datasphere/keyholder/envelope.go:110-229 | and so it does through any asks and answers of other sessions |
| EnvelopeLaws.OpensOnlyWhatWasSealed | datasphere/keyholder/envelope.go:141-260 | nothing opens but what was sealed for this instance, to the challenge of the session, under the key shared with the sender the envelope names; and the envelope is that, byte for byte |
| EnvelopeLaws.AadIsInjective | datasphere/keyholder/envelope.go:248-260 | instance, session and challenge are determined by the associated data |
| EnvelopeLaws.StaysSound | datasphere/keyholder/envelope.go:84-91 | over any run the two maps have equal key sets of at most 64 |
| EnvelopeLaws.OpensOnceInTime | datasphere/keyholder/envelope.go:136-164 | whatever is opened answers a challenge this process issued, in time, with no other answer and no new issue of it before |
| EnvelopeLaws.NoReplay | datasphere/keyholder/envelope.go:136-140 | two opens in one session have a fresh issue between them |
| Wire.DestructiveAnswers | datasphere/keyholder/wire.go:47-80 | an application is told sealed exactly on a seal, absent exactly on absence with nothing that outranks it, and unavailable exactly when no storage condition holds |
| Wire.SaysTheGravest | datasphere/keyholder/wire.go:47-80 | each of the seven answers an application tells apart says what the gravest condition of the error is |
| Wire.StatusTellsToo | datasphere/keyholder/wire.go:53-80 | the status line agrees with the code, and success is told by it alone |
| Wire.ControlAnswers | datasphere/keyholder/wire.go:62-78 | what the control surface refuses with, one condition at a time |
| Wire.StoreErrorsSeen | sdk/go/wire.go:42-52 | what an application learns of each way a store can fail |
| DataPath.Server.ResolveScope | datasphere/keyholder/server.go:403-454 | identity, key, declared scope, vault, role and scope match in this order; the copy the vault handed out is the request's own, and is zeros when it is refused |
| DataPath.Server.ReadRoute | datasphere/keyholder/server.go:296-311 | the read handler does what the request's specification says and leaves the vault alone; the request's copy of its keys is zeros on return |
| DataPath.Server.WriteRoute | datasphere/keyholder/server.go:313-336 | the write handler refuses a secret, exactly as `DataSafety.SecretIsRefusedIff` says, before the body and otherwise writes; its copy of the keys is zeros on return |
| DataPath.Server.DeleteRoute | datasphere/keyholder/server.go:338-354 | the delete handler refuses a secret, exactly as `DataSafety.SecretIsRefusedIff` says, and otherwise deletes; its copy of the keys is zeros on return |
| DataPath.Server.ListRoute | datasphere/keyholder/server.go:356-372 | the list handler answers names, or fails when any could not be recovered; its copy of the keys is zeros on return |
| DataSafety.SealIsSeen | sdk/go/wire.go:42-52 | every well-formed identified request is told sealed exactly when the vault is sealed |
| DataSafety.ServedIff | datasphere/keyholder/server.go:403-454 | exactly who is served, from where: an operator or a device by any scope held, an application by the one its names compose, nobody else; a key of the scope it declares, while the vault serves |
| DataSafety.TurnedAwayIff | datasphere/keyholder/server.go:403-454 | who is turned away, and with which refusal |
| DataSafety.SecretIsRefusedIff | datasphere/keyholder/server.go:456-484 | a write or delete is refused as a secret exactly when an application asks for a key strictly below its scope's secrets |
| DataSafety.ListingIs | datasphere/keyholder/server.go:356-372 | over any bucket a listing names what begins with the prefix, or fails, as damage exactly when some object under it is damaged, and never as a seal or an absence |
| DataSafety.ServedWasAdmitted | datasphere/keyholder/tls.go:86-109 | whatever resolves to a scope came over a connection the listener lets through |
| DataSafety.AnswersAsTheMap | datasphere/keyholder/server.go:296-372 | a resolved request that is not an application's change of a secret, nor too large to take in, answers exactly as its scope's own map, listings included, and acts on no other |
| DataSafety.AbsenceIsReal | sdk/go/wire.go:42-52 | no such object is said exactly when a read reached a served scope that owns the key and lacks it |
| DataSafety.AbsenceInAnyBucket | sdk/go/wire.go:42-52 | over any bucket at all, damaged or foreign, no such object means there is none at the key's path |
| DataSafety.ServesOnlyWhatWasSealed | datasphere/internal/crypto/blob.go:120-158 | over any bucket at all, what a read answers with was sealed for the very key it names, under a data key that one of the scope's keys wraps |
| DataSafety.TouchesOnlyOwn | datasphere/keyholder/server.go:456-484 | an application's request changes only non-secret keys of scopes under its own name |
| DataSafety.RunTouchesOnlyOwn | datasphere/keyholder/server.go:403-484 | nor does any run of them, through any changes of the vault |
| DataSafety.SecretsAndNeighboursUntouched | datasphere/keyholder/server.go:456-484 | secrets and neighbours' objects are as they were after any run of application requests |

## Left out

- Cryptographic algorithms: sealing, derivation, tokens and key agreement are functions with the laws in `Crypto` and `Envelopes`; tokens are injective, which a truncated digest is only up to collisions.
- The frames of a streamed (version 2) body: one function of data key, logical key and body; its pre-checks on salt and exponent, its header and its rekeying are modelled, writing it is not.
- Tampering by the cloud: of a bucket that lies, `Blobs.OpensIff`, `DataSafety.ServesOnlyWhatWasSealed`, `DataSafety.AbsenceInAnyBucket` and `DataSafety.ListingIs` say what one request can be told; an old object put back in its own place is not told from the latest, and the refinement to maps is for a bucket that keeps what it was given.
- YAML, JSON, base64 and hex text, and with them `ParseKeyring`, `Marshal` and the wire forms of bundles: keyrings and bundles are records. A mirror that does not decode is the same as a missing one.
- HTTP, TLS and logging: a request is the URIs of the caller's leaf, its headers and its body; messages for humans are not modelled.
- The wiped-bundle flag's effect on marshalling a bundle.
- The push driver and the operator's saved files: `Fleet` has their guards, as facts gathered by polls, and no command-line behaviour.
- Keepers.KeeperPass: all answers of a pass are of one moment, and nothing else happens until it ends. Which scope and reason `Mismatch` reports, the re-seed budget's ledger and the audit are not modelled.
- FleetStore.FleetAnswersAsMaps: speaks of one growing operator keyring; a second machine's keyring enters by import. A re-seed outside the condition of `Fleet.ReseedSafeIff` is outside it, as `Fleet.StaleReseedSplits` shows it must be.
- FleetSteps.EventKeeps: a request is admitted in one step and does its store operation in another, at any later time; an operation of the operator's machine is one step, and so is each whole-object operation of the bucket.
- FleetStore.FleetReadsWhatItWrote: a scope that joins the operator's keyring brings a name key of its own, since it is freshly drawn; the ideal laws keep the name keys of a run apart.
- Ownership.Run: a request's use of its keys is reading them; the reads inside one store operation are not interleaved with other steps.
- Floating-point rounding: ledgers, prices and ratios are real numbers.
- Decimal text of an hour in a checkpoint: an abstract text that is either an hour or not one.
- LedgerSpec.SpreadIsExact: for instants from 1970 on, as are `LedgerSpec.SpreadSplits` and what builds on them; before then the code's integer division rounds toward zero, which the model follows, and hours next to the epoch share a bucket. `LedgerSpec.SpreadConserves` holds on both sides.
- Snapshots.RestoreInvertsSnapshot: the record of past disagreements is not restored but recomputed from the model as it stands.
- Snapshots.CopyHours: which bad entry is reported, among several, is the loop's choice, as the order of a map is the code's.
- Rolling the accounting period over, usage sampling, pricing, and the kernel's reconcile loop beyond billing.
- KernelAdapt.ClusterState.Adapt: a resize is on record by workload and time; the report of what was asked for beside what was kept is not modelled.
- KernelAdapt.CooldownHolds: a workload deleted and deployed again has lost its stamp, and is not the same workload.
- KernelAdapt.GrowthStaysUnderLimit: each resize is taken alone; several in one pass are not added up, and the code does not add them up either.
- Adapt.ActsAreLogarithmic: stated for an integral step, as the default is; for other steps `Adapt.ActsBoundedByDistance` gives only that resizing stops.
- Cloud adapters, Planck, deployers and templates, networking, manifests and the SDK's transport: input and output or text.
- FleetStore.NothingBlocks: leaves out listings, whose answer `Stores.Store.ListEntries` finds.
