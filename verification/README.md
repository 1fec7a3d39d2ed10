# Verified model of errand's transfer core

errand moves a working tree between machines and merges results back.  This project models the parts of
it where correctness is hardest and proves what they promise, in Dafny 4.11.  `dafny verify dfyconfig.toml`
checks everything.

## What is modelled

**Journaled apply and recovery** (`ApplyProtocol`, `ApplyContents`, `ApplyCommit`, `ApplyRollback`, `ApplyNoLoss`,
`ApplyAtomic`, `ApplyParents`, `ApplyHomes`, `ApplyRecovery`, `ApplySuccess`, `ApplyLimits`).  `ApplyToWorkspace`, rollback,
recovery and commit are one step machine over live paths, the private slots `value`, `previous` and `installed`,
created ancestor directories, the journal in memory and the published journal.  One `Go` is one filesystem
operation.  Between any two of them an operation may fail without effect, take effect and then report an error,
the process or the power may stop (losing any subset of the grouped installer's unsynchronized renames and of
the edits made over them), recovery or commit may be called, and anyone may edit live paths and remove, make or
replace directories.  Both installers are in the machine, the per-item reference protocol and the grouped fast
path.

Four results say where its guarantees end.  (1) If recording the intent to install an originally missing item
fails, the rollback acts on an intent that the published journal does not have; a file someone created there can
be quarantined and, after an interruption, discarded by recovery.  (2) Once the committed journal is published, any
error, or an edit found by the confirmation, starts a rollback under a committed journal; an edit it quarantines
can be deleted by a later commit.  (3) The same rollback, interrupted, leaves a committed journal over the
original content even without outside edits.  (4) A rollback first checks that each begun item still lies in the
directory recorded for it, and never rewrites the journal; one that is interrupted after it removed a created
directory leaves a transaction that every later recovery refuses to finish, although every original is live.
For each there is a run, and the exact condition: no content is lost exactly if the errors of (1) and (2) cannot
happen (`ApplyLimits.LosslessExactly`), a published commit is whole exactly if no error can follow its publication
(`ApplyLimits.UntornExactly`), and recovery removes the transaction exactly if every begun item still has its
recorded directory (`ApplyRecovery.RecoveryRestores`).

**Canonical persistent treap** (`Treap`, `TreapUpdate`, `TreapDiff`, with the flat reference in `Flat`).  The stack
builder, path-copying update with joins, absent-key split and the digest-skipping difference refine the flat
sorted-list code.

**Delta, merge, acceptance and checkpoint** (`Paths`, `Rows`, `Subtrees`, `Delta`, `Merge`, `ThreeWay`,
`MergeRun`, `MergeRoots`, `Accept`, `Transfer`, `Checkpoints`, `Bundles`, `GeneratedBundles`, `BundleMerge`).  A
delta selects the topmost changes of two manifests, the three-way merge walks them, acceptance folds the outcome
into the next base, and the checkpoint consumes each receipt once.  The merge is stated as a fate for every path
below a root and the recursive walk is proved to write exactly that.

**Framed checkpoint journal** (`Observations`, `Frames`, `FramedStore`, `FramedStoreSafety`,
`FramedStoreProgress`), **validators** (`Validate`) and **caches** (`ParentCache`, `RecencyCache`, `CachedReads`).

Sorted lists are compared through what a lookup answers at every path; `Rows.SortedExtensional` turns that into
equality.

## Model

| member | source | states |
|---|---|---|
| `ApplyNoLoss.NoContentLost` | internal/changes/journal.go:609-770 | For every interleaving of outside edits, failures, power losses, recoveries and commits with the steps of the apply, rollback and commit protocol (none of the four error kinds below striking), each deleted content equals its item's expected value or, in the removal of a committed transaction, its original; and a rollback about to discard the transaction leaves no `previous` slot in it |
| `ApplyNoLoss.StepSafe` | internal/changes/apply.go:346-505 | The no-loss invariant is kept by every event in every state: each step of the reference and the grouped installer, of the rollback, of recovery and commit, each failure of each step, and each outside edit |
| `ApplyNoLoss.OutsideSafe` | internal/changes/journal.go:685-769 | An edit of a live path, also over a rename that is not synchronized yet, keeps every private slot safe in every state a power failure can leave |
| `ApplyCommit.CommitsInOrder` | internal/changes/journal.go:225-249 | Over every run, outside edits and all errors included: a commit call either refuses and changes nothing or finds every expected value live and every content item's original in its backup; and a committed transaction is removed, and a backup deleted as committed, only in a run that holds such a call |
| `ApplyCommit.CommitRefuses` | internal/changes/journal.go:235-243 | A commit that finds one live value other than expected, or a begun content item's backup other than its original, keeps the transaction and changes nothing |
| `ApplyCommit.InstallsOverBackup` | internal/changes/apply.go:976-1009 | Over every run, whatever is edited: a value is installed for an originally present item only when its original, and nothing else, lies in the backup |
| `ApplyCommit.LossNeedsCommit` | internal/changes/journal.go:225-249 | In the runs of `NoContentLost` each deleted content is the item's expected value, or its original after a commit call that found everything in order |
| `ApplyCommit.DifferenceNeverCommits` | internal/changes/apply.go:399-408 | Over every run: after the check before an installation, the check of a backup, the validation of the backups or the validation of an installed value reads a difference, no commit is published and no backup removed, whatever follows |
| `ApplyCommit.CommitLookedAtAll` | internal/changes/apply.go:470-486 | Over every run: a published commit was preceded by a point at which all backups held their originals and, for every item, by one at which the validation read its expected value live |
| `ApplyContents.NothingOverwritten` | internal/changes/apply.go:947-1009 | Over every run no operation of the apply, rollback, recovery or commit, whether it succeeds, fails or does both, overwrites a content of an item: each one lies in one of the item's places afterwards or is listed as deleted, and only the merged value comes in; nor does a power failure lose one where no edit is pending over a rename |
| `ApplyContents.ModesNotOverwritten` | internal/changes/journal.go:772-803 | Over every run, outside edits aside, a directory's identity and mode change only from the original to the merged ones or back; a mode someone else set is never overwritten |
| `ApplyContents.EditComesBack` | internal/changes/journal.go:685-769 | A foreign content that the rollback takes aside for inspection is back at its live path three operations later, and the rollback ends with an error |
| `ApplyRollback.PassedItemIsBack` | internal/changes/journal.go:609-803 | Whatever was edited before: a begun item that a rollback passes without an error lies in its recorded directory, and is back: what was backed up is live again and only a value equal to the installed one was taken away; an untouched item is as it was, with its original or, in a group, whatever was live; a directory has its original mode |
| `ApplyLimits.LosslessExactly` | internal/changes/apply.go:346-489 | Over all plans and runs no content is lost if and only if none of four kinds of error can happen: a failed journal write for the intent to install an originally missing item, an error while or after the committed journal is published, and an edit found by the confirmation after it |
| `ApplyLimits.UntornExactly` | internal/changes/apply.go:470-500 | Without outside edits a published commit stands over all expected values in every reachable state if and only if no error can start a rollback under the committed journal |
| `ApplyLimits.KindLoses` | internal/changes/journal.go:685-769 | For each of the four kinds of error, and for all digests, a concrete run in which content created by the user is deleted |
| `ApplyLimits.KindTears` | internal/changes/apply.go:1128-1138 | A concrete run without outside edits in which the committed journal stands over the restored original |
| `ApplyLimits.DiscardLossless` | internal/changes/journal.go:935-946 | Removing the transaction deletes only allowed content if and only if every slot of every item is empty, expected, or after a commit original |
| `ApplyAtomic.StepCalm` | internal/changes/apply.go:346-489 | Without outside edits every event keeps, for each item, one of the shapes the published journal admits, in the durable state and in the current one, and at each point of the protocol the exact place of every item before and after the current one |
| `ApplyAtomic.BackupCalm` | internal/changes/apply.go:976-1009 | Backing up an untouched item leaves it backed up, or in the grouped path possibly still untouched on storage, under a journal that records the intent |
| `ApplyAtomic.InstallCalm` | internal/changes/apply.go:947-974 | Installing a backed-up item replaces it; a lost rename leaves it backed up |
| `ApplyAtomic.GroupSyncCalm` | internal/changes/apply_group.go:160-195 | After the parents' barrier every item of the group is durably replaced, with its backup |
| `ApplyAtomic.UndoContentCalm` | internal/changes/journal.go:675-770 | Rolling back a content item that lies in its recorded directory, from any recoverable shape, advances it towards its original without an error |
| `ApplyAtomic.UndoCalm` | internal/changes/journal.go:609-635 | Starting on the next item fails exactly if the item was begun and its parent directory is missing or not the recorded one |
| `ApplyAtomic.UndoMetadataCalm` | internal/changes/journal.go:772-803 | Rolling back a metadata item in its recorded directory from either mode ends at its original mode without an error |
| `ApplyAtomic.CrashCalm` | internal/changes/apply_sync.go:44-64 | Losing any subset of the unsynchronized renames leaves every item in a recoverable shape |
| `ApplyParents.StepTidy` | internal/changes/apply.go:1140-1213 | Every directory the application makes is on the published list before it appears, outer ones are made first, and a rollback has removed exactly those from the current position on |
| `ApplyParents.UndoParentTidy` | internal/changes/journal.go:636-673 | One step of the removal of created parents keeps the nesting and the list exact, whether the directory is removed, was never made, or is kept with an error |
| `ApplyHomes.StepHomed` | internal/changes/apply.go:411-429 | Without outside edits every begun item lies in the directory recorded with its intent, in the published journal and in the one in memory, until a rollback that has restored every item begins to remove directories; from then on every item stays restored |
| `ApplyHomes.UndoParentsHomed` | internal/changes/journal.go:636-673 | A created directory is removed only when every item is back with nothing unsynchronized |
| `ApplyRecovery.CrashAtomicity` | internal/changes/journal.go:168-207 | In every reachable state of an orderly run: under a committed journal every item has its expected value whichever unsynchronized renames are lost; a removed transaction has left every expected value, or every original and exactly the initial directories |
| `ApplyRecovery.RecoveryRestores` | internal/changes/journal.go:168-207 | Stop an uncommitted application after any step (including steps of earlier recoveries), losing any unsynchronized renames, and recover: within a stated number of operations the transaction is removed, with the initial directories, if and only if every item begun in the published journal still lies in the directory recorded for it; otherwise recovery stops with the journal unchanged; in both cases every original is live |
| `ApplyLimits.RecoveryStrands` | internal/changes/journal.go:619-635 | A concrete run, for every digest, without outside edits: a rollback stopped after it removed a directory leaves a transaction that no recovery can remove |
| `ApplyRecovery.DoomedEnds` | internal/changes/journal.go:619-635 | A rollback with an item to come that lost its directory ends with an error, journal and directories unchanged |
| `ApplyRecovery.BackupOutlivesReplacement` | internal/changes/apply_group.go:98-187 | No state that a power failure can leave shows a content item changed without its original in the backup slot |
| `ApplyRecovery.CommitCompletes` | internal/changes/journal.go:225-249 | A committed application can always be completed: the commit validates, removes the transaction and leaves every expected value |
| `ApplyRecovery.ParentRemovable` | internal/changes/journal.go:636-673 | In an undisturbed rollback every directory the transaction made is still its own and empty when its turn comes |
| `ApplySuccess.UndisturbedApplyCommits` | internal/changes/apply.go:346-500 | Left alone, every application reaches a committed journal with every expected value live |
| `Treap.Hashing.NewTree` | experiments/snapshotindex/tree.go:26-58 | The stack builder returns the canonical tree of any strictly sorted entry list: in path order, in priority order, with exact counts and digests |
| `Treap.Hashing.CanonicalUnique` | experiments/snapshotindex/tree.go:111-138 | There is only one tree for a list of entries that is both path-ordered and priority-ordered |
| `Treap.Hashing.DigestInjective` | experiments/snapshotindex/tree.go:115-138 | Canonical trees with equal root digests are equal, for collision-free digests that never yield the empty tree's |
| `Treap.Hashing.AbsentRoot` | experiments/snapshotindex/tree.go:223-260 | A path that outranks a tree's root does not occur in the tree |
| `Treap.Hashing.CountIsLength` | experiments/snapshotindex/tree.go:121-128 | A node's count is the number of entries below it |
| `TreapUpdate.UpdateCanonical` | experiments/snapshotindex/tree.go:147-197 | Updating, with its rotations and joins, keeps the tree canonical |
| `TreapUpdate.UpdateFind` | experiments/snapshotindex/tree.go:147-197 | After one edit a lookup answers the edited value at its path and the old value everywhere else |
| `TreapUpdate.JoinCanonical` | experiments/snapshotindex/tree.go:199-216 | Joining two canonical trees around an absent path is canonical |
| `TreapUpdate.HistoryIndependent` | experiments/snapshotindex/tree.go:140-145 | Any sequence of edits with distinct paths, in any order, gives the same tree, entries, count and digest as building from the flat-edited list |
| `TreapDiff.SplitCanonical` | experiments/snapshotindex/tree.go:262-284 | Splitting at an absent path gives the canonical trees of the entries before and after it |
| `TreapDiff.DiffRefines` | experiments/snapshotindex/tree.go:223-260 | The digest-skipping tree difference is exactly the flat difference of the two entry lists, in order |
| `TreapDiff.DiffThenUpdate` | experiments/snapshotindex/tree.go:218-221 | Updating a tree with its difference to another gives the other tree |
| `Flat.DiffEntries` | experiments/snapshotindex/index.go:49-69 | The two-index loop computes the specified difference list |
| `Flat.DiffFind` | experiments/snapshotindex/index.go:49-69 | A difference holds at each path exactly the edit that turns one value into the other, and nothing where they agree |
| `Flat.EditEntries` | experiments/snapshotindex/flat.go:51-69 | The two-index edit loop computes the specified edited list |
| `Flat.EditFind` | experiments/snapshotindex/flat.go:51-69 | An edited list answers at every path the edited value |
| `Flat.EditUndoesDiff` | experiments/snapshotindex/flat.go:32-43 | Editing a sorted list with its difference to another gives the other |
| `Merge.MergeLaw` | internal/changes/merge.go:161-281 | For trees closed below the root (nothing above it need be listed), at every path not at or below a reported conflict: an unchanged local side holds the remote entry, an unchanged remote side holds the local entry, and equal sides hold their common entry |
| `Merge.MergeSymmetric` | internal/changes/merge.go:161-325 | Swapping the sides reports the same conflicts and, given a file merge with symmetric clean results, merges every other path to the same entry |
| `Merge.ConflictsDisjoint` | internal/changes/merge.go:189-213 | No reported conflict lies at or below another of the same root |
| `Merge.ConflictGoverns` | internal/changes/merge.go:189-213 | A path is at or below a reported conflict exactly if the verdict that governs it is a conflict |
| `ThreeWay.ConflictExactly` | internal/changes/merge.go:161-281 | Outside other conflicts a path is reported exactly if the subtrees of all three sides differ and its entries cannot be merged: not as directories with reconcilable modes, nor as files whose contents merge cleanly with reconcilable modes, nor as links with reconcilable targets and modes |
| `ThreeWay.FilesMerge` | internal/changes/merge.go:225-249 | Three different files below no conflict: the merged file has the content that the file merge of local, base and remote gives and the mode that one side changed; it is a conflict exactly if that merge is not clean or the modes were changed apart, shown with the marked content, or as the local file if binary |
| `ThreeWay.LinksMerge` | internal/changes/merge.go:250-275 | Three different links: target and mode are each merged towards the side that changed; otherwise a conflict that shows the local link |
| `ThreeWay.OthersConflict` | internal/changes/merge.go:189-281 | Directories of three different modes, directories made apart, entries of different types and entries missing on a side are conflicts over their whole subtree, of which the local one is shown |
| `ThreeWay.DirectoriesMerge` | internal/changes/merge.go:189-213 | A directory both sides changed below takes the mode that one side changed, and each of its children is decided on its own |
| `ThreeWay.MetadataMerge` | internal/changes/merge.go:98-128 | A metadata root is a conflict exactly if an entry is no directory or the modes were changed apart; otherwise the mode that one side changed is written |
| `MergeRun.ChangedSubtrees` | internal/changes/merge.go:141-159 | The marked set is exactly the paths with a difference at or below them |
| `MergeRun.Scratch.MergeTreePath` | internal/changes/merge.go:161-281 | The recursive walk writes, at and below its path, exactly the merged tree, leaves everything else alone and reports exactly the conflicts |
| `MergeRun.Scratch.CopySubtree` | internal/changes/merge.go:327-339 | Copying a subtree writes exactly its entries if its top is listed, and nothing otherwise |
| `MergeRun.Scratch.MergeChildren` | internal/changes/merge.go:205-212 | Merging the children in any order merges everything below the directory |
| `MergeRoots.MergeChangeRoots` | internal/changes/merge.go:42-96 | Every root is merged, metadata roots in their mode alone; the reported conflicts are exactly those of the roots, and without materialized conflicts any of them fails the merge |
| `MergeRoots.MergeMetadataPath` | internal/changes/merge.go:98-128 | On any trees a metadata path writes its merged mode, or reports a conflict and writes what it shows: the local mode, or the local subtree if an entry is missing or not a directory; it touches nothing else |
| `MergeRoots.MetadataWritesOne` | internal/changes/merge.go:94-128 | For a validated bundle that write is one entry |
| `MergeRoots.ContentConflictsDisjoint` | internal/changes/merge.go:42-96 | Across all roots no content conflict is nested in another |
| `MergeRoots.RootLaw` | internal/changes/merge.go:98-281 | The merge law for content and metadata roots alike |
| `Subtrees.SubtreeManifest` | internal/changes/changes.go:676-700 | The binary searches return exactly the entries at or below the root, in order |
| `Subtrees.Search` | internal/changes/changes.go:676-688 | Binary search finds the first index at which a monotone test holds |
| `Delta.SelectRoots` | internal/changes/changes.go:538-586 | The roots are exactly the changed directories and the topmost other changed paths, ascending |
| `Delta.AnyAncestorIn` | internal/changes/changes.go:562-575 | The walk finds a proper ancestor in the set exactly if there is one |
| `Delta.SelectEntries` | internal/changes/changes.go:587-610 | The selected entries are exactly those touched by a root or above one |
| `Delta.SelectAncestors` | internal/changes/changes.go:621-634 | The walk adds exactly the listed proper ancestors |
| `Delta.SelectedManifest` | internal/changes/changes.go:644-674 | The manifest is the sorted selection, its byte count the running sum, and it fails exactly when a file passes the limit |
| `Delta.SelectSnapshotDelta` | internal/changes/changes.go:538-619 | The bundle is the delta of the two manifests; it fails exactly when its roots or bytes pass their limits |
| `Delta.FitsIsTotal` | internal/changes/changes.go:659-671 | For valid sizes the running limit check is a check of the total |
| `Accept.ValidateSourceMergeBases` | internal/changes/checkpoint.go:354-374 | Accepts exactly if the bundle's merge bases are the checkpoint's entries on every path a root touches |
| `Accept.Replaced` | internal/changes/checkpoint.go:309-326 | The walk up decides exactly whether an installed root covers the path and no conflict at it or content conflict above it blocks it |
| `Accept.MergeAcceptedSource` | internal/changes/checkpoint.go:282-350 | The next base is strictly sorted and holds the remote entry on accepted paths and the base entry elsewhere; there is none exactly if the merge bases differ |
| `Transfer.DeltaAcceptRoundTrip` | internal/changes/checkpoint.go:282-350 | For all sorted manifests A and B without an entry for the root, accepting the whole delta from A to B gives exactly B |
| `Transfer.TransferAll` | internal/changes/changes.go:538-619 | Selecting a delta and accepting all of it returns the remote manifest, unless a limit stops it |
| `Transfer.DeltaSeparate` | internal/changes/changes.go:556-586 | Between parent-closed manifests no root of a delta lies at or below a content root |
| `Transfer.DeltaExact` | internal/changes/changes.go:538-586 | Every root of a delta has itself changed, and every changed path is touched by exactly one root |
| `Transfer.TransferFitsMerge` | internal/changes/changes.go:621-642 | The trees a delta carries fit every root of it: closed below content roots, and directories on both sides at metadata roots |
| `Transfer.PartialAcceptanceSound` | internal/changes/checkpoint.go:292-350 | Whichever roots were selected, set aside for conflicts found before and merged: an accepted path advances to the remote entry and lies outside all conflicts of a merged root, so the workspace holds the merge law's entry there; every other path keeps its base entry |
| `Transfer.ConflictsKeepBase` | internal/changes/checkpoint.go:316-322 | Every path at or below a content conflict of a merged root keeps its old base entry |
| `Transfer.UnmergedKeepsBase` | internal/changes/apply.go:163-200 | Every path under no merged root keeps its old base entry |
| `Transfer.SettledAccepted` | internal/changes/checkpoint.go:292-326 | Unless the transfer is refused, every path of a merged root at or above which that root's merge reported no conflict advances, whatever other roots conflict: a metadata conflict holds back its own entry only |
| `Transfer.AcceptedFromBase` | internal/changes/checkpoint.go:354-374 | Where a base changes, it held the very entry the bundle was made from and takes the remote one |
| `Transfer.RootsOutsideConflicts` | internal/changes/apply.go:507-523 | Keeps exactly the selected roots that neither lie at or below a conflict nor above one |
| `Transfer.MergeSelected` | internal/changes/apply.go:143-279 | Merges exactly the selected roots outside earlier conflicts and reports all of them as installed, with the conflicts of the merge and those set aside before it; it is refused exactly if conflicts are not materialized and there is one |
| `Transfer.TransferSelected` | internal/changes/checkpoint.go:282-350 | Merging any selection and folding the outcome: every path of a merged root that its merge left without a conflict takes the remote entry unless the transfer is refused, the workspace holds the merge law's entry wherever the base advances, and every other path keeps its base entry; a refused transfer keeps the whole base |
| `Checkpoints.ExactlyOnce` | internal/changes/checkpoint.go:181-259 | Over every run of initializations, advances and new receipts, with stops before or between the two writes, a checkpoint's revision is the number of receipts it consumed, in order from zero; each receipt is consumed at most once, only at its bound revision and only as a valid receipt of the bundle |
| `Checkpoints.ManifestIsFold` | internal/changes/checkpoint.go:243-259 | Over every run a checkpoint's manifest is the acceptance of its consumed bundles and outcomes, in order and each against the base it names, folded into the snapshot it was created with |
| `Checkpoints.ManifestPointwise` | internal/changes/checkpoint.go:282-350 | Over every run, with the acceptance of `Accept.MergeAcceptedSource`: each entry of a checkpoint is remote of the last consumed bundle that was accepted there, or else of the snapshot it was created with |
| `Checkpoints.EveryTransferConsumed` | internal/changes/checkpoint.go:181-259 | Finished applications with valid receipts whose acceptance succeeds are all consumed in order, from a created checkpoint to the folded manifest: no call refuses without a reason |
| `Checkpoints.RepeatChangesNothing` | internal/changes/checkpoint.go:237-239 | Repeating a completed advance returns the same version and writes nothing |
| `Checkpoints.RetryReachesTheSame` | internal/changes/checkpoint.go:228-259 | A call stopped anywhere and tried again ends in the state and with the reply of the uninterrupted call |
| `Checkpoints.ReplacedReceiptRefused` | internal/changes/checkpoint.go:228-242 | Over every run: a different receipt in the place of the one consumed last is not taken for a repeat of its advance; the call is refused and changes nothing |
| `Checkpoints.EarlierCallRefused` | internal/changes/checkpoint.go:237-242 | Over every run: once a later receipt of a checkpoint is consumed, the call of an earlier one is refused and changes nothing, wherever it stops |
| `Checkpoints.ConsumedElsewhereRefused` | internal/changes/checkpoint.go:223-227 | Over every run: a consumed receipt is refused, and nothing changes, at every other revision and for every other checkpoint |
| `Checkpoints.Storage.Advance` | internal/changes/checkpoint.go:181-259 | The call, write by write, has exactly the specified effect and reply |
| `Checkpoints.InitializeOnce` | internal/changes/checkpoint.go:109-137 | Once initialized, a checkpoint is never reset: after any run initializing it again writes nothing, and with the creation snapshot answers the progress made |
| `Checkpoints.RunContinues` | internal/changes/checkpoint.go:109-137 | No run changes a checkpoint's source or creation snapshot or lowers its revision |
| `Observations.ApplyObservations` | experiments/snapshotcheckpoint/derived_codec.go:229-258 | Succeeds exactly for ordered edits whose deletes are present and whose result is within the entry limit, and then gives the edited list |
| `Observations.Coalesce` | experiments/snapshotcheckpoint/derived_store.go:132-165 | The pending edits are exactly the last edit of each path, without deletes of paths the base lacks, in path order |
| `Observations.CoalescedReplay` | experiments/snapshotcheckpoint/derived_store.go:132-170 | For any base and any valid delta records the coalesced edits apply and give what applying the records one after another gives |
| `Observations.ReplayCoalesced` | experiments/snapshotcheckpoint/derived_store.go:151-170 | Loading a base and its records in one pass never fails and gives the sequential state |
| `Observations.DifferenceApplies` | experiments/snapshotcheckpoint/derived_codec.go:96-123 | A recorded difference applies to its base and gives back the target |
| `Frames.LittleRoundTrip` | experiments/snapshotcheckpoint/derived_store.go:182-192 | A 64-bit little-endian length reads back |
| `Frames.ReadBack` | experiments/snapshotcheckpoint/derived_store.go:182-192 | A complete frame reads back its payload and its digest, whatever follows it |
| `Frames.ReadsExactly` | experiments/snapshotcheckpoint/derived_store.go:107-120 | A frame is read exactly if a whole one with the right length, link to the last frame and digest starts here; one that is cut, altered or out of order stops the scan |
| `Frames.TornStops` | experiments/snapshotcheckpoint/derived_store.go:111-118 | A frame cut anywhere is not read |
| `Frames.ScanFrames` | experiments/snapshotcheckpoint/derived_store.go:103-147 | The scan loop computes the specified scan and knows where the base frame ends |
| `Frames.TruncatedScan` | experiments/snapshotcheckpoint/derived_store.go:107-147 | Cut a chain of frames anywhere: the scan ends with the state, the digest and the count of exactly the complete ones |
| `Frames.ScanExactly` | experiments/snapshotcheckpoint/derived_store.go:103-147 | Whatever the bytes, a scan reads a chain of whole frames that decode one after another, and stops only where no further one can be read |
| `FramedStore.Load` | experiments/snapshotcheckpoint/derived_store.go:84-180 | Loading any bytes gives the specified result; the coalesced replay in it cannot fail |
| `FramedStore.ScanSane` | experiments/snapshotcheckpoint/derived_codec.go:192-208 | Whatever the bytes, the records a scan accepts can be replayed on the base it read |
| `FramedStoreSafety.LoadShaped` | experiments/snapshotcheckpoint/derived_store.go:171-179 | Loading a file of a history gives its last complete state and describes the file exactly: chain, size, records, journal bytes and whether a suffix is torn |
| `FramedStoreSafety.LoadExactly` | experiments/snapshotcheckpoint/derived_store.go:84-180 | Whatever the file holds, loading it succeeds exactly if it is within its size and a readable base follows the magic, and gives the state, links and counts of all the frames that could be read |
| `FramedStoreSafety.TruncationLoadsComplete` | experiments/snapshotcheckpoint/derived_store.go:27-30 | A file truncated anywhere after its base frame loads the state of its complete frames |
| `FramedStoreSafety.AppendHolds` | experiments/snapshotcheckpoint/derived_store.go:226-247 | A session that appends, completely or in part, extends the very history its delta was computed from |
| `FramedStoreSafety.StoreSafety` | experiments/snapshotcheckpoint/derived_store.go:194-267 | After any interleaving of loads, saves, interrupted saves and deletions the file is missing or loads exactly the last completed save, with at most 32 deltas, 8 MiB of journal and 64 MiB of file |
| `FramedStoreProgress.SaveExactly` | experiments/snapshotcheckpoint/derived_store.go:194-267 | Over every run, a save that is not interrupted completes exactly if its state is proper and either its difference fits behind a file that is still the one loaded, or the full state fits; the file then loads the target. A difference that fits is appended; at 32 deltas, at a size limit, after a recovery or without a loaded state the file is replaced; otherwise nothing changes |
| `Validate.ValidateAny` | internal/archive/archive.go:43-79 | Accepts exactly the manifests whose entries pass, whose paths are distinct and of which no listed ancestor is anything but a directory |
| `Validate.ValidateSorted` | internal/archive/archive.go:84-131 | Accepts exactly the strictly sorted manifests that the general check accepts, although it searches only earlier entries and stops at the first cached ancestor |
| `Validate.BothValidators` | internal/archive/archive.go:81-84 | The two validators agree on every sorted manifest |
| `Validate.CheckAncestors` | internal/archive/archive.go:109-128 | Checking ancestors up to the first cached one decides reachability among the entries so far and keeps the cache sound |
| `Bundles.ValidateBundle` | internal/changes/bundle.go:197-303 | Accepts exactly the valid bundles |
| `Bundles.CheckRoots` | internal/changes/bundle.go:214-258 | Accepts exactly ascending roots that no content root covers in any spelling and that differ in more than case |
| `Bundles.CheckTree` | internal/changes/bundle.go:318-356 | Accepts exactly valid, sorted, declared trees free of case collisions whose sizes add up, and returns their sum |
| `Bundles.EntryDeclared` | internal/changes/bundle.go:368-385 | Decides by binary searches exactly whether an entry is at or below a root, or a directory above one |
| `Bundles.CheckValue` | internal/changes/bundle.go:275-301 | Accepts exactly roots whose value changed and that are called metadata if and only if they are lone directories on both sides |
| `GeneratedBundles.GeneratedBundleValid` | internal/changes/changes.go:538-674 | For parent-closed manifests with allowed names and no case collisions across both trees, within the limits, every delta is a valid bundle and its byte count stays within the limit |
| `GeneratedBundles.AncestorIsDirectory` | internal/changes/bundle.go:368-385 | An ancestor carried for a root is a directory on whichever side has it |
| `BundleMerge.ValidBundleFits` | internal/changes/bundle.go:197-303 | Whatever manifests a bundle was made from, once it is valid its roots are apart and, with every parent directory listed, its trees fit the merge of every root |
| `BundleMerge.NoCaseTwins` | internal/changes/bundle.go:214-258 | In a valid bundle no two paths of one tree, no two roots, and no root and a differently spelled ancestor of a later root differ only in case |
| `ParentCache.MaterializationPaths.Parent` | internal/changes/materialize_paths.go:32-85 | Lends the handle of a path's directory, retaining at most sixteen. The root is used exactly for paths at most one directory deep, or when sixteen handles are retained and none can be evicted; a handle is closed only to make room, and it is the least recently used unborrowed leaf |
| `ParentCache.MaterializationPaths.OldestLeaf` | internal/changes/materialize_paths.go:118-137 | Finds an unborrowed leaf with the least recent use exactly if there is one |
| `ParentCache.MaterializationPaths.Release` | internal/changes/materialize_paths.go:87-94 | Returns a loan of a handle that is still retained |
| `ParentCache.MaterializationPaths.Close` | internal/changes/materialize_paths.go:139-150 | With every loan returned, terminates with every handle closed exactly once |
| `ParentCache.CloseSound` | internal/changes/materialize_paths.go:114-117 | Closing an unborrowed leaf keeps the account of handles: lent ones are retained, each is closed at most once and before its retained ancestors, none leaks |
| `ParentCache.SomethingEvictable` | internal/changes/materialize_paths.go:118-137 | With nothing borrowed some retained handle is a leaf |
| `RecencyCache.CheckpointCache.Put` | internal/changes/checkpoint_cache.go:48-70 | The record comes first and only as much as needed is evicted from the back; the map mirrors the list, the byte count is exact and both limits hold |
| `RecencyCache.CheckpointCache.Get` | internal/changes/checkpoint_cache.go:36-47 | A hit moves the record to the front; a miss changes nothing |
| `RecencyCache.CheckpointCache.MakeRoom` | internal/changes/checkpoint_cache.go:61-63 | The eviction loop terminates with room and never removes from an empty list |
| `RecencyCache.CheckpointCache.ForgetDirectory` | internal/changes/checkpoint_cache.go:84-96 | Drops exactly the records below the directory |
| `RecencyCache.EvictsLeast` | internal/changes/checkpoint_cache.go:61-63 | Eviction keeps the longest front part of the list that leaves room |
| `CachedReads.ReadMatching` | internal/changes/checkpoint_read.go:76-122 | For any chunking the comparer reports a match exactly if the file equals the known bytes, and otherwise its exact bytes or that it is too long |
| `CachedReads.Reader.Read` | internal/changes/checkpoint_read.go:27-68 | Whatever the caches hold, a read answers exactly what decoding and validating the file afresh would |
| `CachedReads.Reader.Save` | internal/changes/checkpoint.go:410-441 | Returns exactly what is published; a completely published state of this relationship that survives its encoding is retained as its bytes, and otherwise both caches are empty |

## Left out

- ApplyNoLoss.NoContentLost: assumes that none of the four kinds of error strikes, because the code loses content under each of them (`ApplyLimits.KindLoses`); `ApplyLimits.LosslessExactly` proves this condition exact.
- ApplyRecovery.RecoveryRestores: does not promise that the transaction is removed after an interrupted removal of created directories, because the code then cannot remove it (`ApplyLimits.RecoveryStrands`); the condition is exact.
- ApplyRecovery.CrashAtomicity: assumes no error while or after the committed journal is published, because the code can then be torn (`ApplyLimits.KindTears`); `ApplyLimits.UntornExactly` proves this condition exact.
- ApplyAtomic.StepCalm: the protocol is modelled on values, one operation per step, rather than as objects updated in place, because crashes and interference between any two operations are its subject. The identity check of a parent directory is modelled where a rollback starts on an item; its repetitions during an operation appear as errors that may strike there, and open file handles are not captured.
- ApplyRecovery.BackupOutlivesReplacement: power loss drops renames only of the grouped installer, item by item; every other write and rename is durable when it returns, as the code synchronizes it.
- The content of a file or subtree is one digest, and a rename or the removal of the whole transaction directory is one step; partly copied or partly removed trees are not modelled.
- Outside edits change live paths and ancestor directories, not the private transaction directory; an edit of a path with no rename pending is durable at once.
- For a metadata item the identity check and the mode change are one step; permission widening, permission errors and the window between physical and logical modes are left out.
- Journal encoding and `validateApplyJournal`, ownership, locks, contexts and cancellation.
- Treap.Hashing.NewTree: nodes are values and their counts and digests are computed on construction; the worker pool of `finishTree` and the partitioned index are left out.
- Treap.Hashing.DigestInjective: digests are functions assumed free of collisions; SHA-256 itself is not modelled.
- Merge.MergeLaw: needs trees that list every directory between a root and what lies below it; the validators also admit implicit directories.
- MergeRun.Scratch.MergeTreePath: writing the scratch tree never fails, children are visited in no particular order, and `git merge-file` is any function that answers clean, text conflict or binary conflict.
- Delta.SelectSnapshotDelta: `Snapshot` lookups, subtrees and differences are those of the sorted entry list; the snapshot's own tree is not modelled.
- Bundles.ValidateBundle: the version and baseline digest fields, the path rules and case folding are parameters.
- Validate.ValidateAny: the checks of a single entry's path, fields and symlink target are parameters, the same for both validators.
- FramedStoreSafety.StoreSafety: assumes that no save is deceived by a checksum collision; gob is a codec whose decoder inverts its encoder, the persisted index nodes and the identity key are left out, and a load or save under its lock is one step.
- Checkpoints.ExactlyOnce: calls are serialized, as their documentation demands of callers; guarded path checks are left out, and so is the validation of the folded manifest, which may refuse it (in `ManifestPointwise` the fold is `Accept.Accepted`, which `Accept.MergeAcceptedSource` computes, or a refusal).
- FramedStoreProgress.SaveExactly: that the lock is free and that storage accepts the bytes are inputs (a save that gets no lock does not happen).
- BundleMerge.ValidBundleFits: that every parent directory is listed is a hypothesis; the staged trees that the bundle is compared with have them all.
- ParentCache.MaterializationPaths.Parent: methods under the mutex are atomic; whether an open succeeds and whether a closed directory is still the one opened are inputs; the single use of a retained ancestor by `open` is left out.
- RecencyCache.CheckpointCache.Put: record sizes are inputs, and the linked list is a sequence.
- CachedReads.Reader.Read: read errors are left out.
- The command line, daemons, transports, archives, snapshots of live trees, platform files and everything else outside these components.
