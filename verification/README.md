# ctxlane, modelled and verified

ctxlane keeps vendor profiles (Claude and Codex accounts) behind names, contexts and directory bindings, moves an older
`aictx` installation to its own directories, and leases profile identities to automation. This project models the parts
of it that must be right under crashes, clock trouble and concurrency, and proves what they promise.

`dafny verify dfyconfig.toml` checks everything.

## The pieces

**Migration** (`Layout`, `Naming`, `StagedLayout`, `StagingRules`, `VerifiedLayout`, `Disk`, `Recovery`, `Commit`,
`CrashRuns`, `VendorMigration`, `VendorComparison`, `LayoutFindings`, `StrandedRuns`). The disk is a map from paths to
trees plus the journal. `Recovery.Machine` holds it together with the number of durable writes left before the power
fails; every rename, journal write and tree removal spends one, and with none left the running operation ends with
`PowerCut` and all its memory is lost. Every method's contract therefore speaks about every cut. `Disk.Inv` is what the
disk satisfies at each of them. `CrashRuns.MigrateThroughCrashes` runs one migration and then any number of recoveries,
each cut wherever the caller likes. `StagingRules` says exactly which plans can be staged and `VerifiedLayout` which of
them verify. `VendorMigration.MigrateTree` carries a whole vendor tree from its manifest to the new installation.
`LayoutFindings` holds the layouts that cannot migrate, `StrandedRuns` what others may do to the disk between boots.

**Leases** (`Clock`, `LeaseModel`, `LeaseAggregate`, `LeaseRuns`, `LeaseAnswers`, `LeasePolicy`). `LeaseModel` says what each operation
does to a lease value, with nanosecond clocks, 128-bit monotonic overflow and the year-9999 wall limit written out.
`LeaseRuns` proves what holds over every sequence of operations, `LeaseAnswers` exactly when each operation succeeds, with
what, and what it objects to first. `LeaseAggregate.Lease` is the object that changes its
fields in place and meets that model; `PerformAll` puts it through any sequence and hands the results of `LeaseRuns` to it.
`LeasePolicy` proves that policy evaluation and leases agree.

**Policy** (`Contracts`, `WireTypes`, `Policy`, `Radix`, `PolicyEncoding`, `PolicyDecoding`, `PolicyDigests`,
`PolicyFindings`). The gates in their order, what a permit means without an order and what it carries, which gate a
refusal names, how decisions change under a narrower controller, the digested bytes with a decoder, and what digest expectations come to when the digest hashes those bytes.

**Profiles** (`CaseFolding`, `Metadata`, `Resolver`, `Management`, `MetadataChanges`, `ProfileLocks`, `Interleaving`,
`LockSteps`, `OperationRuns`). Metadata validation
as the loops that perform it, resolution, the management changes and the store that applies them, the lock table, and a
transition system in which any number of runs, edits, renames, removals, additions, fences and recoveries take one step
at a time. A lock conversion that meets contention may lose the mode it had. `LockSteps` carries out the lock steps with
the lock table's own methods. `OperationRuns` says what each step may change and runs whole operations to their end.

**Algorithms** (`Levenshtein`, `ProfileUid`, `SetupToken`, `TokenInput`, `VendorTree`, `VendorCopy`, `VendorVerify`).

## What turned out false, and exactly when it holds

- A committed migration does not always verify. A plan that can be staged verifies exactly when two conditions on its
  directories hold (`VerifiedLayout.StagedVerifiesIff`), and is undone otherwise:
  - no directory between an anchor and a layout directory is left out. Staging creates missing ancestors of a layout
    directory, but the exact comparison lists only the five layout directories. `LayoutFindings.DataBelowNeverVerifies`:
    configuration in `/x/ctxlane`, data in `/x/ctxlane/share/ctxlane`.
  - neither the configuration nor the state directory lies inside the vendor root, where its files would be vendor entries
    that were not planned. `LayoutFindings.StateInVendorNeverVerifies`: data in `/x/ctxlane`, state in
    `/x/ctxlane/vendor-state/ctxlane`.
- Not every planned layout can be staged: `StagingRules.StageableIff`. A directory that goes through the owner marker at the
  root of its stage cannot be made (`LayoutFindings.StateUnderMarkerNeverStages`).
- A clear disk does not always let a migration begin. The directories made first (src/migration/journal.rs:199-213) include
  the journal's parent, which creates another anchor when the configuration directory lies below one
  (`LayoutFindings.ConfigBelowNeverBegins`), and each anchor's parent, which takes the journal's own path when another
  directory lies below it (`LayoutFindings.DataInJournalNeverBegins`). The checks that follow
  (src/migration/journal.rs:215-216) then refuse. `LayoutFindings.JournalFitsIff` is the exact condition.
- With all of that a migration with enough power succeeds exactly when the layout fits and its targets and stages are free:
  `VendorMigration.MigrateTree`. Both platform defaults and an explicit root fit.
- Recovery with enough power does not always finish. When a tree stands at its target and all ten thousand of its archive
  names are taken, it is stuck. `Recovery.Machine.Recover` fails exactly then and `Recovery.StuckIffExhausted` says it can be
  read off the disk beforehand. The names contain the transaction's id, which the journal shows from its first write on:
  `StrandedRuns.StrandForGood` cuts a migration into any layout right after its first rename, takes the names before the next
  boot, and every recovery fails. Anything else that appears on the disk in between does no harm
  (`StrandedRuns.StrangersKeepInv`).
- Narrowing the controller is not monotone once the request states a digest expectation: the digest covers the limits, so
  only one of two controllers can match it. `Policy.ExpectationBreaksNarrowing` says which expectations break it for any
  nested pair, `PolicyFindings.ReceivedExpectationBreaksNarrowing` does it for a request that can be received, and
  `PolicyDigests.WiderPermitsExactlyWhen` gives the condition on the limits.
- For the same reason a policy derived for renewal stops matching its lease when the request expected a digest and the new
  lifetime differs from the first: `PolicyFindings.ReceivedRenewalStopsMatching`, and exactly when in
  `PolicyDigests.RenewalBindsExactlyWhen`.

## Model

| member | source | states |
|---|---|---|
| `Layout.TargetAnchors` | src/migration/filesystem.rs:278-300 | the anchors are the outermost of the three directories, in path order |
| `Layout.AnchorsApartAndCovering` | src/migration/filesystem.rs:278-300 | anchors are pairwise non-nested, each is one of the three directories, and together they cover all three |
| `Layout.ConfigCommitsLast` | src/migration/journal.rs:539-546 | the commit order visits each anchor once, and the only anchor holding the configuration file last |
| `Layout.OwnerUnique` | src/migration/journal.rs:527-537 | mapping a path to its stage has one possible anchor |
| `StagedLayout.WritesCovered` | src/migration/journal.rs:527-537 | every planned write lies under some anchor, so mapping never fails |
| `StagedLayout.StagedExactIffNoGaps` | src/migration/filesystem.rs:416-455 | a plan that can be staged passes the exact comparison if and only if no directory between an anchor and a layout directory is left out |
| `StagingRules.StageableIff` | src/migration/journal.rs:260-297 | a plan can be staged if and only if no layout directory goes through an owner marker, no entry lies on the way to one, no two entries share a path, and each entry's directory is there or made before it |
| `StagingRules.ContentIff` | src/migration/journal.rs:260-297 | below an anchor a plan that can be staged stages exactly its directories, the ways to them, the two files and the vendor entries |
| `VerifiedLayout.StagedVendorExactIff` | src/migration/filesystem.rs:383-408 | a plan that can be staged passes the vendor comparison if and only if neither the configuration nor the state directory lies inside the vendor root |
| `VerifiedLayout.StagedVerifiesIff` | src/migration/journal.rs:334-395 | a plan that can be staged verifies if and only if both conditions hold |
| `VerifiedLayout.SideBySideVerifies` | src/migration/journal.rs:334-395 | three directories side by side under one root verify, whatever was staged in them |
| `Naming.ArchivePathAccepted` | src/migration/recovery.rs:116-133 | every archive name the rollback can choose is accepted when read back from the journal |
| `Naming.ArchiveAcceptedIff` | src/migration/recovery.rs:116-133 | a name read back from the journal is accepted exactly when it is the target's, with the transaction's fragment and a number, beside the target |
| `Naming.PlainNamesAreWellNamed` | src/migration/journal.rs:548-554 | targets, stages and archives of one transaction never collide, across anchors and kinds |
| `Disk.OneHome` | src/migration/recovery.rs:161-195 | at every instant a landed tree is whole, at exactly one of its target and its journalled archive, and its stage is gone |
| `Disk.OthersUntouched` | src/migration/recovery.rs:231-280 | trees that were there before are never changed, and only the transaction's own paths appear |
| `Recovery.Machine.ChooseArchivePath` | src/migration/recovery.rs:201-229 | the least of ten thousand names that is free, or an error only when all are taken |
| `Recovery.Machine.ArchiveCommittedTarget` | src/migration/recovery.rs:231-280 | moves the tree to its journalled archive or finds it there; the both-exist and both-missing refusals are unreachable |
| `Recovery.Machine.RemoveOwnedTreeIfPresent` | src/migration/recovery.rs:282-304 | removes exactly the anchor's own staged tree; the marker refusal is unreachable |
| `Recovery.Machine.RollbackAnchor` | src/migration/recovery.rs:145-196 | the archive path is journalled before the move, and is the first free name unless one was journalled already; at most three writes; only a power cut or exhausted names stop it |
| `Recovery.Machine.Rollback` | src/migration/recovery.rs:143-199 | ends with no journal, no stage, nothing at a target, and exactly the landed trees in the returned archives, each newly chosen one the first name that was free |
| `Recovery.Machine.VerifyCommittedTarget` | src/migration/journal.rs:334-395 | accepts exactly targets with the planned vendor entries below the vendor root, the planned entries under each anchor and, where required, the owner marker; each refusal names a defect that is there |
| `Recovery.Machine.RemoveOwnerMarkerIfPresent` | src/migration/journal.rs:506-519 | the anchor's marker is gone and everything else unchanged |
| `Recovery.Machine.Finalize` | src/migration/recovery.rs:68-73 | ends with every tree at its target, no marker, no stage and no journal |
| `Recovery.Machine.Recover` | src/migration/recovery.rs:17-78 | reports nothing, a mismatch, finalized or rolled back exactly when it should, with trees set aside at the first names free when it started; given three writes per anchor and one more to spare, it fails on a valid journal exactly when a tree at its target has no free archive name |
| `Recovery.StuckIffExhausted` | src/migration/recovery.rs:201-229 | whether a rollback must get stuck is what the disk shows before it starts |
| `Recovery.SettledVerifies` | src/migration/journal.rs:334-395 | a target whose journal says verified passes verification again exactly when its layout does |
| `Commit.Prepare` | src/migration/journal.rs:192-253 | journals exactly when targets, stages and journal are absent and neither the journal nor an anchor stands in the other's way; otherwise names the first obstacle and changes nothing |
| `Commit.ValidJournalIff` | src/migration/recovery.rs:80-141 | a journal is accepted exactly when it is the first journal of a well-formed transaction with nothing changed but phase, commit flags and acceptable archives |
| `Commit.PerformWrites` | src/migration/journal.rs:268-297 | stages exactly the planned entries; refuses only at an owner marker, a missing parent or a taken name |
| `Commit.CommitAnchors` | src/migration/journal.rs:307-317 | at every cut a landed configuration anchor implies every other anchor is at its target |
| `Commit.ExecuteTransaction` | src/migration/journal.rs:255-332 | succeeds only with every tree whole at its target; every cut leaves a recoverable disk with the configuration last |
| `Commit.Execute` | src/migration/journal.rs:161-190 | refused exactly when the way is not clear, for the first obstacle; undone, into the first free archive names, for a refused entry only if the plan cannot be staged, and for the layout only if it was staged whole and does not verify |
| `CrashRuns.Boot` | src/migration/recovery.rs:17-78 | one recovery with enough power finishes unless it is stuck; a finished history never changes again |
| `CrashRuns.MigrateThroughCrashes` | src/migration/journal.rs:161-190 | after any number of cut recoveries the disk is untouched, in place, set aside, or still recoverable; landed trees are kept from every boot to every later one |
| `VendorMigration.TreeStageableIff` | src/migration/journal.rs:260-297 | a well-formed link-free tree's manifest can be staged if and only if files and markers are off the way to the layout directories and no entry of the tree meets one of them or one of the files |
| `VendorMigration.FitsIff` | src/migration/journal.rs:161-190 | the layout fits exactly when such a tree can be staged in it, verifies and leaves room for the journal |
| `VendorMigration.MigrateTree` | src/migration/journal.rs:161-190 | with enough power any such tree is migrated exactly when the layout fits and targets and stages are free; below the anchors then lie exactly the two planned files, the tree's copy below the vendor root and the layout's directories, and everything earlier is as it was |
| `VendorMigration.SeparateVerifies` | src/migration/journal.rs:334-395 | directories that do not contain one another verify, whatever was staged in them |
| `VendorMigration.SeparateFits` | src/migration/filesystem.rs:278-318 | directories that do not contain one another fit exactly when none lies below the journal's path |
| `VendorMigration.SideBySideFits` | src/config.rs:94-110 | the directories under an explicit root fit |
| `VendorMigration.OneDirectoryFits` | src/config.rs:85-91 | so does one directory for configuration and data with the state inside it, the default where a platform names no state directory |
| `VendorComparison.VerifiesIffStored` | src/migration/filesystem.rs:383-408 | a target passes the walk against the manifest, in order and with no skipped lock, exactly when it stores what the source's copy does |
| `VendorComparison.ComparisonIsTheWalk` | src/migration/filesystem.rs:383-408 | comparing what lies below the vendor root with the plan is that walk |
| `LayoutFindings.DataBelowNeverVerifies` | src/migration/filesystem.rs:416-455 | a layout whose plans can be staged and never pass the exact comparison |
| `LayoutFindings.StateInVendorNeverVerifies` | src/migration/filesystem.rs:383-408 | a layout whose plans can be staged, pass the exact comparison and never the vendor one |
| `LayoutFindings.StateUnderMarkerNeverStages` | src/migration/journal.rs:260-270 | a layout in which nothing can be staged |
| `LayoutFindings.JournalInsideIffBelow` | src/migration/journal.rs:192-217 | the journal's place would make an anchor exactly when the configuration directory lies strictly below another |
| `LayoutFindings.JournalFitsIff` | src/migration/journal.rs:192-218 | there is room for the journal exactly when, besides, no other directory lies strictly below the journal's path |
| `LayoutFindings.ConfigBelowNeverBegins` | src/migration/journal.rs:192-217 | a layout that cannot migrate on an empty disk |
| `LayoutFindings.DataInJournalNeverBegins` | src/migration/journal.rs:192-218 | another one, for the other reason |
| `StrandedRuns.StrangersKeepInv` | src/migration/recovery.rs:143-199 | trees that others create away from the transaction's own paths leave the disk as recoverable as it was |
| `StrandedRuns.StrandForGood` | src/migration/recovery.rs:201-229 | a migration into any layout, cut right after its first rename and then robbed of its archive names, is never recovered |
| `Contracts.AcceptedExactlyWhen` | src/automation/contracts/request.rs:296-313 | a request is valid if and only if it repeats the signed order, keeps its limits and lies wholly inside the signed interval |
| `Contracts.RejectedBecause` | src/automation/contracts/request.rs:263-313 | a rejected request is told the first thing wrong with it, in terms of instants and limits |
| `Policy.PermittedExactlyWhen` | src/automation/policy.rs:557-715 | a permit needs the consent of every source, room on every dimension and a digest expectation met by the one policy these leave, and nothing else; that policy is what it carries, field by field, with the least of every ceiling |
| `Policy.CarriesOnlyOne` | src/automation/policy.rs:651-704 | an evaluation leaves no choice of policy |
| `Policy.RefusedAtFirst` | src/automation/policy.rs:557-728 | a refusal names the first of eighteen consents that is missing, including the mapping of contract errors and readiness denials |
| `Policy.RenewalCarries` | src/automation/policy.rs:438-450 | a permit is renewed for exactly the lifetimes it could have been given for, and carries what it would have then |
| `Policy.NarrowingIsMonotone` | src/automation/policy.rs:557-715 | without a digest expectation a narrower controller or more load never permits more, and limits only shrink |
| `Policy.WiderPermitsIff` | src/automation/policy.rs:705-710 | when the narrower evaluation permits, the wider one does exactly when its own digest meets the expectation |
| `Policy.ExpectationBreaksNarrowing` | src/automation/policy.rs:705-710 | of two nested evaluations the narrower permits and the wider refuses exactly under an expectation of the narrower digest, where the digests differ |
| `PolicyEncoding.FieldBuffer.AppendField` | src/automation/policy.rs:732-737 | appends the length-prefixed name and value to the buffer |
| `PolicyEncoding.EncodePolicy` | src/automation/policy.rs:454-551 | builds the digested bytes field by field in order |
| `PolicyDecoding.ParseWhatWasEncoded` | src/automation/policy.rs:732-737 | parsing length-prefixed fields inverts writing them |
| `PolicyDecoding.DecodeWhatWasEncoded` | src/automation/policy.rs:454-551 | a decoder that takes every field by its name behind the protocol's tag recovers every field but the request's own digest |
| `PolicyDecoding.EncodingInjective` | src/automation/policy.rs:454-551 | equal digested bytes mean equal policies up to the request's own digest |
| `PolicyDigests.SameDigestIff` | src/automation/policy.rs:454-551 | without a collision two policies have one digest exactly when they agree in all but their request's digest |
| `PolicyDigests.WiderPermitsExactlyWhen` | src/automation/policy.rs:705-710 | under a wider controller a permitted request stays permitted exactly when it expects no digest or no limit changes |
| `PolicyDigests.RenewalBindsExactlyWhen` | src/automation/lease.rs:654-695 | a renewal policy still matches exactly when no digest was expected or the lifetime is the first one |
| `PolicyFindings.ReceivedTextsFit` | src/automation/contracts/types.rs:141-150 | every policy permitted to a request that can be received encodes without saturating a length |
| `PolicyFindings.ReceivedExpectationBreaksNarrowing` | src/automation/policy.rs:705-710 | a receivable request the narrower controller permits and the wider one refuses |
| `PolicyFindings.ReceivedRenewalStopsMatching` | src/automation/lease.rs:654-695 | a receivable request whose lease accepts its policy and none renewed for another lifetime |
| `LeasePolicy.PermittedPolicyBinds` | src/automation/lease.rs:654-695 | a permitted policy always matches the lease bound to its request |
| `LeasePolicy.RenewalPolicyBindsIff` | src/automation/policy.rs:438-450 | a renewal policy still matches if and only if no digest was expected or the new one meets it |
| `LeasePolicy.PermittedActivates` | src/automation/lease/activation.rs:17-93 | activated at the moment of evaluation a permitted lease becomes active unless a clock overflows or the resolved identity does not fit |
| `LeaseAggregate.Lease.EnforceDeadlines` | src/automation/lease.rs:509-559 | the new state and result are those of the model's enforcement |
| `LeaseAggregate.Lease.Activate` | src/automation/lease/activation.rs:17-92 | the new state and result are those of the model's activation |
| `LeaseAggregate.Lease.BeginRenewal` | src/automation/lease.rs:277-374 | the new state and result are those of the model's renewal |
| `LeaseAggregate.Lease.AcknowledgeRenewal` | src/automation/lease.rs:376-402 | the new state and result are those of the model's acknowledgement, which revokes on a bad control |
| `LeaseAggregate.Lease.Close` | src/automation/lease.rs:404-438 | the new state and result are those of the model's closure |
| `LeaseAggregate.Lease.Revoke` | src/automation/lease.rs:440-460 | the new state and result are those of the model's revocation |
| `LeaseAggregate.Lease.RevokeControlled` | src/automation/lease.rs:463-484 | the new state and result are those of the model's controlled revocation |
| `LeaseAggregate.Lease.MarkError` | src/automation/lease.rs:486-506 | the new state and result are those of the model's error marking |
| `LeaseAggregate.Lease.AuthorizeLaunch` | src/automation/lease.rs:562-588 | the new state and result are those of the model's launch check; a launch needs a control that repeats the binding and generation, and returns the authority's own handle |
| `LeaseAggregate.Lease.PerformAll` | src/automation/lease.rs:270-588 | any sequence of operations on the object leaves it where the runs lead and accepts what they accept: only under controls that repeat caller, tenant, run, role, host and current generation, with launches strictly before deadline and signed expiry that return the authority's handle |
| `LeaseRuns.AcceptedTransitions` | src/automation/lease.rs:270-588 | the state each accepted operation needs and the state it makes |
| `LeaseRuns.RejectedTransitions` | src/automation/lease.rs:376-391 | a rejected operation changes the state only by a missed deadline, a failed acknowledgement or a revoked policy |
| `LeaseRuns.RunSound` | src/automation/lease.rs:306-374 | over every run each authority stays within the signed expiry and session on both clocks, and no live lease was observed at a deadline |
| `LeaseRuns.RunEvolves` | src/automation/lease.rs:349-357 | over every run maxima never grow, deadlines and generations never fall, ended leases never change |
| `LeaseRuns.RenewalsTerminate` | src/automation/lease.rs:324-356 | the generation counts the renewals, of which there are at most as many as the deadline has nanoseconds left to move |
| `LeaseRuns.RenewalStep` | src/automation/lease.rs:299-374 | a renewal happens strictly before both deadlines and sets both exactly one lifetime ahead |
| `LeaseRuns.FencedForever` | src/automation/lease.rs:590-608 | after a renewal no control block of that or an earlier generation is ever accepted again, by any operation in any run |
| `LeaseRuns.RenewingMissRevokes` | src/automation/lease.rs:522-538 | a renewing lease that misses any deadline is revoked for the acknowledgement, never expired |
| `LeaseRuns.RenewingExpiresOnlyAfterLeaving` | src/automation/lease.rs:522-558 | over any run a renewing lease expires only after an acknowledgement or an error marking |
| `LeaseRuns.LaunchesInTime` | src/automation/lease.rs:562-588 | every launch in every run lies strictly before the monotonic deadline, the signed expiry and the end of the signed session |
| `LeaseRuns.NoLaunchOnceReached` | src/automation/lease.rs:643-652 | once any observation reached the monotonic deadline no run launches again, however the wall clock moves |
| `LeaseRuns.AcceptedIsCurrent` | src/automation/lease.rs:590-608 | whatever operation is accepted, its control repeats the binding's caller, tenant, run, role and host and the current generation |
| `LeaseAnswers.ControlAnswer` | src/automation/lease.rs:590-608 | a control passes exactly when nothing in it differs, and otherwise the first difference is reported |
| `LeaseAnswers.EnforcementAnswer` | src/automation/lease.rs:508-559 | enforcement ends a live lease exactly when some deadline is reached on some clock, for the acknowledgement before the session and the session before the interval |
| `LeaseAnswers.PolicyAnswer` | src/automation/lease.rs:654-702 | a policy passes exactly when it answers the request the lease was made for within what was signed |
| `LeaseAnswers.LaunchAnswer` | src/automation/lease.rs:562-588 | a launch is authorized exactly for an active lease, a matching control, an observation before every deadline and a bound policy with the authority's digest; it returns the resolved handle, and revokes exactly for another digest |
| `LeaseAnswers.RenewalAnswer` | src/automation/lease.rs:277-374 | a renewal begins exactly for an active lease, a matching control, an observation before every deadline, a bound policy that fits the resolved identity, and room on both clocks; it returns the next generation and fixes every field of the next authority |
| `LeaseAnswers.AcknowledgementAnswer` | src/automation/lease.rs:376-402 | an acknowledgement succeeds exactly for a renewing lease, a matching control and an observation before every deadline; a mismatch ends the renewal |
| `LeaseAnswers.CloseAnswer` | src/automation/lease.rs:404-438 | a closure succeeds exactly for an active or renewing lease, a matching control, one of two reasons and an observation before every deadline |
| `LeaseAnswers.RevocationAnswer` | src/automation/lease.rs:463-484 | a controlled revocation succeeds exactly for a live lease, a matching control and an observation before every deadline |
| `LeaseAnswers.ActivationAnswer` | src/automation/lease/activation.rs:17-93 | a lease is activated exactly under a bound policy for its first lifetime, a resolution that fits and room on both clocks; every field of the first authority is fixed |
| `LeaseAnswers.LaunchObjection` | src/automation/lease.rs:562-588 | a refused launch names the first of caller, clock, missed deadline, state, control, policy and changed digest |
| `LeaseAnswers.CloseObjection` | src/automation/lease.rs:404-438 | a refused closure names the first of control, reason, clock, missed deadline and state |
| `LeaseAnswers.AcknowledgementObjection` | src/automation/lease.rs:376-402 | a refused acknowledgement names the first of control, clock, missed deadline and state |
| `LeaseAnswers.RevocationObjection` | src/automation/lease.rs:463-484 | a refused revocation names the first of control, clock, missed deadline and state |
| `LeaseAnswers.RenewalObjection` | src/automation/lease.rs:277-374 | a refused renewal names the first of control, clock, missed deadline, state, policy and room |
| `LeaseAnswers.PlainAnswers` | src/automation/lease.rs:270-275 | refusing, and revoking or marking in error without a control, succeed exactly from the right states for the right reasons |
| `LeaseAnswers.LaunchedHandle` | src/automation/lease.rs:562-588 | over any run every launch hands out the handle resolved by the accepted activation |
| `Metadata.Validate` | src/model/validation.rs:11-164 | the loops with their sets accept exactly the metadata that is valid pair by pair |
| `Metadata.ValidateProfiles` | src/model/validation.rs:40-103 | profiles are accepted exactly when each is valid and no two share a folded name, an identity or a folded directory |
| `Resolver.NearestIffDeepest` | src/resolver.rs:124-134 | a binding resolves a directory if and only if it is the deepest one containing it, whatever the list order |
| `Resolver.ContextPrecedence` | src/resolver.rs:94-150 | in valid metadata the context is the one offered by the first of explicit name, nearest binding, active and default context to offer any; an unknown explicit name and no offer at all are the only failures |
| `Resolver.ProfilePrecedence` | src/resolver.rs:44-92 | in valid metadata a profile is resolved exactly when it fills the provider's slot in that context; resolution never dangles |
| `Resolver.ExplicitProfileWins` | src/resolver.rs:44-70 | an explicit profile is returned exactly when it exists and belongs to the provider, whatever the contexts |
| `Management.MetadataStore.UpdateConfig` | src/config.rs:375-398 | nothing is written unless metadata was valid before and is valid after the change |
| `Management.MetadataStore.RenameProfileIn` | src/management.rs:203-223 | in sound metadata the rename's own guards are the only reasons to refuse |
| `Management.MetadataStore.RenameContextIn` | src/management.rs:342-371 | in sound metadata the rename's own guards are the only reasons to refuse |
| `Management.MetadataStore.RemoveProfileIn` | src/management.rs:253-286 | a failed cleanup leaves the metadata exactly as it was |
| `Management.MetadataStore.EditProfileIn` | src/management.rs:158-184 | in sound metadata an edit is written exactly when its entry is the one expected and its details are acceptable, and replaces nothing else |
| `Management.MetadataStore.AddProfileIn` | src/management.rs:117-156 | in sound metadata an addition is written exactly when its name and identity are new and the profile is addable, and changes nothing else |
| `Management.EditAcceptedIff` | src/management.rs:175-179 | the validation after an edit looks at the edited details alone |
| `Management.AddAcceptedIff` | src/management.rs:121-140 | the validation after an addition asks exactly that the profile is acceptable, derived from its state directory, and alone in it |
| `MetadataChanges.EditAnswer` | src/management.rs:175-179 | an edit succeeds exactly on the entry seen and replaces its details alone |
| `MetadataChanges.AddAnswer` | src/management.rs:121-135 | an addition succeeds exactly under a free name and unused identity, stores the profile as given, and changes nothing else |
| `MetadataChanges.RemoveAnswer` | src/management.rs:253-264 | a removal succeeds exactly on the unreferenced entry seen, which goes and whose identity is retired, and changes nothing else |
| `MetadataChanges.RestoreAnswer` | src/management.rs:269-278 | a restoration succeeds exactly for a retired identity under a free name, and brings back that entry alone |
| `MetadataChanges.RenameProfileAnswer` | src/management.rs:203-223 | a profile rename succeeds exactly on the entry seen under a free name, moves it with every slot naming it, and changes nothing else |
| `MetadataChanges.RenameContextAnswer` | src/management.rs:342-371 | a context rename succeeds exactly on the inactive entry seen under a free name, moves it with the default and its bindings, and changes nothing else |
| `Management.RenameProfileNeverRejected` | src/management.rs:203-223 | the validation after renaming a profile never rejects |
| `Management.RenameProfilePreservesResolution` | src/management.rs:203-223 | every request resolves to the same profile and source with only the renamed label mapped |
| `Management.RenameContextNeverRejected` | src/management.rs:342-371 | the validation after renaming a context never rejects |
| `Management.RenameContextPreservesResolution` | src/management.rs:342-371 | every request resolves to the same profile and source with only the renamed label mapped |
| `Management.RemoveNeverRejected` | src/management.rs:253-264 | the validation after a removal never rejects, and the removed identity can never be added again |
| `Management.RestoreUndoesRemove` | src/management.rs:269-278 | restoring after a removal gives back the same metadata |
| `ProfileLocks.LockTable.TryAcquire` | src/config/storage.rs:309-333 | granted exactly when no other owner conflicts |
| `ProfileLocks.LockTable.TryConvert` | src/config/storage.rs:229-283 | converted exactly when no other owner conflicts; contention keeps or loses the old mode as the system has it |
| `ProfileLocks.LockTable.AcquireOrdered` | src/config/storage.rs:335-350 | requests for one file merge to the stronger mode; all are granted or none is |
| `ProfileLocks.FreeIff` | src/config/storage.rs:309-333 | a lock is free for a mode exactly when granting it would leave no two owners in conflict |
| `Interleaving.StepKeepsInv` | src/config/profile_fence.rs:189-258 | every step of every actor keeps locks exclusive, metadata valid, guards behind markers and operations past their check away from them |
| `Interleaving.RunKeepsInv` | src/config/profile_fence.rs:391-499 | so does every interleaving |
| `Interleaving.MarkerExcludesOperations` | src/runner.rs:358-368 | in every reachable state a marker excludes every ordinary operation past its fence check |
| `Interleaving.RunningEntryUnchanged` | src/runner.rs:487-503 | from its recheck to its end a run or credential check sees the profile entry it checked |
| `Interleaving.VendorOperationsNeverOverlap` | src/runner.rs:746-756 | vendor operations on one identity never overlap, nor with a lease using its home |
| `Interleaving.GuardsKeepTheirMarker` | src/config/profile_fence.rs:312-334 | a live guard's marker is on disk and no other live guard shares its identity |
| `Interleaving.FencedEntriesFrozen` | src/management.rs:167-184 | while its marker stays no step edits, renames or removes a fenced profile |
| `Interleaving.RestoreNeverFails` | src/management.rs:266-286 | whatever ran since a removal, a failed cleanup can put the profile back and the result is valid |
| `OperationRuns.OnlyOwnSteps` | src/config/profile_fence.rs:189-342 | a step leaves every other actor and every other actor's locks as they were |
| `OperationRuns.MetadataSteps` | src/management.rs:158-286 | metadata changes only by an update or a restoration, each of which is the operation's own change |
| `OperationRuns.MarkerChanges` | src/config/profile_fence.rs:312-334 | publishing adds the fence's own marker, clearing and unlinking remove it, and nothing else touches any marker |
| `OperationRuns.ClearingUnmarks` | src/config/profile_fence.rs:312-334 | in every reachable world clearing takes away exactly the guard's marker, which was there, and the guard with its locks |
| `OperationRuns.GuardsBegin` | src/config/profile_fence.rs:391-628 | a guard is published only for a current or historic profile without a marker, adopted only for a marker among its profiles, and orphaned only where a marker stands |
| `OperationRuns.GuardsTakeOver` | src/config/profile_fence/alias.rs:31-75 | a guard takes over an alias only when nobody holds it and excludes it from then on; it uses its home in one mode at a time |
| `OperationRuns.FenceCycle` | src/config/profile_fence.rs:391-499 | a fence that finds its locks free is published and guards; clearing it leaves markers, locks and metadata as before it began |
| `OperationRuns.VendorRunsAfterFence` | src/runner.rs:358-368 | once a fence has come and gone a run on the same identity starts |
| `OperationRuns.RecoveryClears` | src/config/profile_fence.rs:505-628 | a recovery that finds its locks free and its marker among its profiles removes that marker and leaves nothing else |
| `OperationRuns.ContentionOnlyDelays` | src/config/profile_fence.rs:207-256 | a guard refused the exclusive mode, with or without losing its old one, clears when it tries again |
| `OperationRuns.DeferringIsFinal` | src/config/profile_fence.rs:364-389 | a deferred guard never touches a marker or the metadata again |
| `OperationRuns.VendorRuns` | src/runner.rs:358-368 | a run that finds its locks free, no marker and the entry it expects starts, and leaves the world as it found it |
| `OperationRuns.ChangeHappens` | src/management.rs:158-228 | an edit, rename, removal or addition that is possible and unfenced happens, and nothing else does |
| `OperationRuns.FailedRemovalLeavesNoTrace` | src/management.rs:253-286 | a removal whose cleanup fails leaves the world as it found it |
| `OperationRuns.NamesApart` | src/management.rs:193-201 | in every reachable world two operations holding their locks share a name only when both are runs |
| `OperationRuns.IdentitiesApart` | src/management.rs:193-201 | in every reachable world at most one run, edit, rename, removal or fence about to be published is at work on an identity |
| `LockSteps.TakeStep` | src/config/storage.rs:309-333 | trying a lock on the table is the actor's take step, possible exactly when the lock is granted |
| `LockSteps.ConvertStep` | src/config/storage.rs:229-283 | converting a guard's lock on the table is its upgrade or downgrade step with the same outcome |
| `LockSteps.BeginOperation` | src/config/storage.rs:335-350 | taking an operation's locks at once ends where its start, take and ready steps lead, or changes nothing |
| `LockSteps.RunOrderly` | src/config/storage.rs:335-350 | in every reachable world an actor still acquiring holds only locks it has taken, so it never opens a held file again |
| `Levenshtein.Rolling` | src/resolver.rs:294-310 | the two swapped rows compute the distance defined on prefixes |
| `Levenshtein.DistanceIsLeast` | src/resolver.rs:294-310 | that distance is the least number of single-character edits turning one text into the other |
| `ProfileUid.EncodeCrockford` | src/model/profile_uid.rs:117-125 | the loop writes the base-32 digits of the value |
| `ProfileUid.EncodedIsAccepted` | src/model/profile_uid.rs:94-115 | every 128-bit value encodes to an accepted body, and decoding inverts it |
| `ProfileUid.AcceptedIsEncoded` | src/model/profile_uid.rs:94-115 | every accepted body is the encoding of one 128-bit value |
| `ProfileUid.BytesAreAccepted` | src/model/profile_uid.rs:88-90 | sixteen bytes behind the prefix always parse |
| `ProfileUid.ParsedIff` | src/model/profile_uid.rs:94-115 | parsing accepts exactly the prefix followed by the form of a 128-bit value |
| `SetupToken.NormalizePaste` | src/secret.rs:775-812 | the loop computes the normal form or the first objection |
| `SetupToken.NormalForm` | src/secret.rs:775-812 | an accepted paste comes to its characters without blanks and line breaks, which make a valid token |
| `SetupToken.TokensAreNormal` | src/secret.rs:775-812 | a valid token pastes to itself, with or without a line ending |
| `SetupToken.WrappedIsNoToken` | src/secret.rs:827-845 | nothing behind a label and nothing that begins or ends with a quote is a token |
| `SetupToken.PasteObjections` | src/secret.rs:775-812 | a refused paste is too large, empty, has a blank or unsupported line, or comes to no valid token, in that order |
| `TokenInput.ClaudeSetupTokenInput.HandleKey` | src/secret.rs:592-624 | each key changes the reader as its table says |
| `TokenInput.ClaudeSetupTokenInput.PushCharacter` | src/secret.rs:267-289 | each character is ignored, kept or refused by state |
| `TokenInput.ClaudeSetupTokenInput.PushPaste` | src/secret.rs:304-319 | a paste is taken only into an untouched prompt |
| `TokenInput.ClaudeSetupTokenInput.FinishInput` | src/secret.rs:353-356 | finishing returns the text exactly when it is a valid token |
| `TokenInput.ReadPrompt` | src/secret.rs:626-676 | the event loop with its first objection held comes to what feeding the events defines |
| `TokenInput.HeldForGood` | src/secret.rs:626-676 | after an objection no further input makes the prompt return a token |
| `TokenInput.FeedKeepsForm` | src/secret.rs:266-357 | whatever is typed or pasted, the text never holds blanks or control characters and never exceeds the limit |
| `TokenInput.TypedAgreesWithPasted` | src/secret.rs:775-812 | typing an accepted paste line by line finishes exactly at the extra Enter with the same token |
| `TokenInput.KeyAnswers` | src/secret.rs:592-624 | which keys interrupt, cancel, finish or continue, and which character lengthens the text |
| `TokenInput.KeyObjections` | src/secret.rs:267-302 | what a character or a tab is refused for, and where |
| `TokenInput.BackspaceUndoes` | src/secret.rs:331-351 | Backspace takes back the character, blank or line end before it |
| `TokenInput.ErasingUndoesTyping` | src/secret.rs:331-351 | any number of Backspaces after a typed text leaves all but that many of its last characters |
| `VendorTree.Walk.InspectVendorTree` | src/migration/filesystem.rs:128-185 | pushes the entries parents first and the skipped locks, or stops at the first link or special file |
| `VendorTree.LockNameIff` | src/migration/filesystem.rs:195-199 | the names skipped are exactly those with the extension `lock`, a stem that is not empty before it |
| `VendorCopy.ReplayForest` | src/migration/journal.rs:283-297 | replaying a subtree's manifest finds every parent, meets no taken name and adds exactly the subtree's copy |
| `VendorCopy.ReplayMakesCopy` | src/migration/journal.rs:283-297 | replaying a tree's manifest makes exactly the lock-free copy of the tree |
| `VendorCopy.CopyStores` | src/migration/filesystem.rs:213-258 | at every path the copy stores a directory for a directory, bytes and executable bit for a file that is no lock, and nothing else |
| `VendorCopy.ReplayLater` | src/migration/filesystem.rs:213-226 | replaying against a later state of the source fails exactly when a listed file is gone or has another length, time or executable bit |
| `VendorVerify.CopyInspects` | src/migration/filesystem.rs:512-525 | the copy's manifest has the same paths, kinds, lengths and executable bits and no skipped lock |
| `VendorVerify.VerifyVendorCopy` | src/migration/filesystem.rs:383-408 | decides whether manifest and bytes match |
| `VendorVerify.CopyAlwaysVerifies` | src/migration/filesystem.rs:383-408 | the copy of a tree always passes |
| `VendorVerify.VerifiedIsCopy` | src/migration/filesystem.rs:383-408 | any target that passes stores exactly what the copy would |

## Left out

- Assumed of the disk: renames, journal writes, file writes and whole-tree removals are atomic and durable in order;
  creating a stage and writing its owner marker is one step. Input/output errors, permission, ownership, link and reparse
  checks, and syncing are not modelled; power cuts are.
- Assumed of the migration source: the legacy store does not change between planning and recovery, so the plan read again
  by recovery is the plan that was executed.
- Recovery of a verified journal without an installation identity, written by the schema-v1 migrator, is not modelled.
- Creating and removing missing parent directories is modelled only where it makes an anchor or takes the journal's place and so
  refuses the migration; the operation lock is not modelled.
- CrashRuns.MigrateThroughCrashes: excludes target directories that are the root or the journal's own path, or whose own name
  contains the fragment used for a transaction's trees, since such a name could coincide with one of them. Discovered
  directories are named after the application, or `config`, `data` and `state`.
- PolicyDecoding.DecodeWhatWasEncoded: asks that every text leaves room in a 64-bit length, as `PolicyFindings.ReceivedTextsFit`
  proves of everything received, and that a timestamp's instant is a function of its text.
- PolicyDigests.SameDigestIff: asks that the hash does not collide on the two encodings compared; nothing else is assumed of it.
- Recovery.Machine.Recover: takes a journal that passes validation to be one this protocol wrote; any other is refused unchanged.
- The hash itself, digest printing, timestamp parsing, signature verification and caller attestation are parameters or given
  values; `digest` is any function of a policy.
- Persisting leases, snapshots, replay comparison and the mapping of errors to wire codes.
- Management.MetadataStore.UpdateConfig: reads and writes one value; the TOML form, schema upgrade and file locks around it are
  not modelled.
- Metadata.ValidateProfiles: the checks on one profile's own fields are a parameter, since none of them looks at another profile.
- Interleaving.StepKeepsInv: fences and guards are states of a transition system rather than objects, and locks are granted one
  at a time in any order. Marker bytes are validated by identity and profile reference only.
- VendorTree.Walk.InspectVendorTree: a directory's entries are given in name order, the order the walk sorts them into.
- TokenInput.ReadPrompt: signals, terminal raw mode, the echo of a continuation, and the refusal of input still queued when the
  prompt ends are not modelled; the unread events are part of the result.
- Suggestions built from the edit distance, shell integration, the terminal interface, process spawning, environment
  filtering, keyring access and doctor reports.
