# The `$BOOT` synchroniser of blsforme

blsforme keeps a FAT boot volume in step with a list of boot entries. One synchronisation hashes every
kernel image and initrd of the entries, installs the entries one after another (copying the files that
differ, then writing the loader configuration), and finally removes whatever the installed entries no longer
account for. Discovery finds the kernels the entries are made of, on the system and again on the volume. The
topology crate walks the devices that back a device.

## How it is modelled

- `Fat.dfy` is the volume: a map from case-folded paths to nodes that remember their spelling, and the
  primitive operations (make a directory, write, remove, remove a tree, rename, barrier). `Run` is what a list of
  operations makes of a disk. `CrashOf` says which disks a power cut may leave: an operation not yet followed
  by a barrier may be lost, kept or torn. `Volumes.dfy` is the mounted volume as an object, with a log of what
  was carried out, and a medium that may fail any operation; `faults` counts those failures.
- `Text.dfy`, `Order.dfy` hold strings, paths, the order of a `BTreeSet` of paths and stable sorting.
- `AtomicCopy.dfy`, `Compare.dfy` model `file_utils.rs`; `Cmdlines.dfy`, `Entries.dfy` model `cmdline.rs` and
  `entry.rs`; `Assets.dfy`, `Conf.dfy`, `SyncPlan.dfy`, `Loaders.dfy` and `Installed.dfy` model
  `systemd_boot/mod.rs`; `Discovery.dfy` models `kernel.rs`; `Chains.dfy` models `probe.rs`.
- The methods of `Loaders.dfy` do what the program does, step by step, on a `Volume`, and are proved to emit
  exactly the operations `SyncPlan.dfy` describes (`SyncOps`). The results about whole runs are lemmas about those
  operations.
- `Wanted.dfy`, `Frame.dfy`, `Outcome.dfy` say which paths a request is about, what is never touched, and what is
  managed. `Convergence.dfy`, `Effects.dfy`, `Scaffold.dfy`, `Turns.dfy` follow the entries one after another on
  any volume, and `Exactness.dfy` says exactly when a run converges.
- `Feasible.dfy` says when a run cannot get stuck, and that complete runs exist; `Recovery.dfy` is crash recovery,
  `Idempotence.dfy` the second run.
- `ConfRefs.dfy` reads the written configurations back. `RunShape.dfy` describes a run operation by operation;
  `Integrity.dfy` is about dangling configurations at every step, `Cuts.dfy` and `PowerCut.dfy` after a power cut,
  `Removal.dfy` tells beforehand which files a run removes, and `Exposure.dfy` whether some power cut in a run can
  leave a configuration dangling.
- `Arguments.dfy`, `KernelFiles.dfy` and `Layout.dfy` say what the command line, discovery and a synchronisation come to
  in terms of lines, characters, file names and the fields of schemas, down to the constants of the program: which words
  a command line has, which files a discovered kernel has and in which order, how files and configurations are called,
  and whose files are removed.
- `Overrides.dfy` holds the laws of discovery, `RoundTrip.dfy` and `Rediscovery.dfy` the way from installation back
  to discovery. `Examples.dfy` has concrete inputs at which a property fails, or holds beyond the usual case.
- A request (`SyncPlan.Request`) is what hashing the entries gives: schema, collision table, hashed entries
  and their merged command lines. `SyncPlan.CompleteRun` is a run that came to its end in which no
  removal failed, with whatever choice of hash-map order, and with more copied than necessary where a read
  error occurred. `Loaders.SyncEntries` yields one.

## What is relied on, and what happens without it

- `Wanted.Modern`: no legacy schema, and assets named as discovery names them (`Overrides.DiscoveredOrderly` and
  `Rediscovery.OrderlyWellNamed` show that discovery does so, unless a version is called `shared`).
- `Wanted.Genuine`: hashes are those of the sources. `Wanted.RequestIsGenuine` shows that every request made by
  hashing is.
- A case-insensitive volume has one node for names that differ in case, and cleaning up compares names as
  strings. `Exactness.ConvergesExactly` says what that takes: a run converges if and only if
  - whatever leads to one node asks for the same name and content there (`Exactness.Agrees`).
    `Examples.TwinsNeverConverge` has two versions that differ only in case, with different images;
    with the same image a run converges (`Examples.TwinsConverge`), though one kernel is all that is read back
    (`Examples.TwinsAreOne`); and
  - the volume keeps every asset (`Exactness.AllKept`): no file that already has the right content has its
    name in another case, and in a cleaned namespace some entry spells the directory as the volume does.
    Otherwise a run that reports success deletes the freshly installed kernel, as in
    `Examples.CapitalsLoseTheImage`.

  Both can be checked before the run. With `Tree`, `Modern` and `Genuine` they are `Exactness.Keeps`; crash recovery,
  idempotence, integrity and the round trip ask for no more of how the volume spells its names.
- `Outcome.Ready` is the usual case, in which both hold (`Exactness.ReadyIsKept`): `Wanted.Tidy` requests have no
  two wanted paths that differ only in case, and distinct identifiers (`Entries.IdsInjective` and
  `Entries.StatesCollide` say when); on a `Wanted.WellSpelled` volume, kernel directories and assets that are there
  are spelled as wanted.
- A configuration that names a missing file keeps a kernel from booting. From a volume without one
  (`Integrity.Linked`), a run that is not interrupted brings one about only by taking away what an old configuration
  still names (`Integrity.NoDanglingConf`). A run that is cut by a power failure brings one about more easily:
  copies are fenced by barriers, cleaning up issues none. `Exposure.ExposedExactly` says when, from the volume and
  the copies to be made: a managed configuration names a file that the run removes, and no entry that copies follows
  one that rewrites the configuration; or it names a staging file. So every upgrade is exposed that drops a kernel
  whose configuration names its image (`Exposure.DroppedBreaks`), as in `Examples.UpgradeBreaks`.

## Model

| member | source | states |
|---|---|---|
| Volumes.Volume.JoinInsensitive | blsforme/src/file_utils.rs:27-41 | The search loop returns the spelling the volume already has for the name, and the name itself when there is none. |
| Volumes.JoinKeepsKey | blsforme/src/file_utils.rs:27-41 | Joining without regard to case never changes which node is meant. |
| Text.FoldsAlike | blsforme/src/file_utils.rs:27-41 | Names are the same to the volume exactly when they agree letter by letter but for case. |
| AtomicCopy.CreateDirAll | blsforme/src/file_utils.rs:105-111 | Creates exactly the missing directories in order; on a sound medium it fails only if one of them cannot be made. |
| AtomicCopy.StageCopy | blsforme/src/file_utils.rs:105-123 | Leading directories, then the complete content in the staging file, then a barrier; a failure leaves only steps of that kind behind. |
| AtomicCopy.Replace | blsforme/src/file_utils.rs:125-133 | Removes an old destination before the rename, each followed by a barrier. |
| AtomicCopy.CopyAtomicVfat | blsforme/src/file_utils.rs:95-138 | Success leaves exactly the old disk with the destination replaced, its parents made and the staging file gone; failure touches only these; on a sound medium it fails only when the source is unreadable or a step is impossible. |
| AtomicCopy.CopyRun | blsforme/src/file_utils.rs:95-138 | The operations of a copy, run on any volume, end in that disk. |
| AtomicCopy.StagedAs | blsforme/src/file_utils.rs:102-102 | The staging file lies beside the destination; `..TmpWrite` replaces the extension of the name, or is added to a name without one. |
| AtomicCopy.CopyDurable | blsforme/src/file_utils.rs:95-138 | However a power cut falls into a copy, the destination is its complete old node, the complete new file, or absent, and if it was there and is absent the staging file durably holds the complete new content. |
| Fat.WriteMayTear | blsforme/src/bootloader/systemd_boot/mod.rs:366-370 | A power cut after a write without a barrier may leave the volume as it was, or the file with any content. |
| Fat.TreeMayTear | blsforme/src/bootloader/systemd_boot/mod.rs:266-271 | A power cut in the removal of a tree may leave any part of it, with the directories above. |
| Compare.Hasher.FilesIdentical | blsforme/src/file_utils.rs:49-74 | A positive answer is right even with stale bytes of an earlier read error in the hasher; without read errors the answer is exact. |
| Compare.ChangedFiles | blsforme/src/file_utils.rs:77-88 | No differing or unreadable pair is ever omitted; without read errors the result is exactly the differing pairs, in order. |
| Entries.StatesCollide | blsforme/src/entry.rs:74-87 | Two different state ids lead to equal identifiers for some pair of versions exactly when one is absent or they are each other's negation. |
| Entries.IdsInjective | blsforme/src/entry.rs:74-87 | For one operating system, and state ids that do not absorb each other (all absent, or all present and not negative), identifiers are equal exactly when version and state are. |
| Text.SignedReads | blsforme/src/entry.rs:82-86 | The digits of a rendered state id stand for its value, and a minus sign for a negative one. |
| Entries.IdIsCleaned | blsforme/src/bootloader/systemd_boot/mod.rs:173-199 | Every identifier made under the global schema starts with one of the prefixes cleaning up looks for. |
| Assets.AssetCollisions.Insert | blsforme/src/bootloader/systemd_boot/mod.rs:533-544 | A hash is appended to its key's list unless it is there. |
| Assets.AssetCollisions.FromEntries | blsforme/src/bootloader/systemd_boot/mod.rs:519-531 | The table holds, for every key, the naive list of distinct hashes over all assets of all entries, and nothing else. |
| Assets.TableUnique | blsforme/src/bootloader/systemd_boot/mod.rs:519-531 | There is only one such table. |
| Assets.HashesFirstOccur | blsforme/src/bootloader/systemd_boot/mod.rs:519-544 | Each hash of a key is listed once, in the order of first occurrence. |
| Assets.HashesComplete | blsforme/src/bootloader/systemd_boot/mod.rs:519-544 | No asset's hash is missing from its key's list. |
| Assets.IndexedWhenConflicting | blsforme/src/bootloader/systemd_boot/mod.rs:547-556 | An asset gets an index exactly when its key was seen with two different contents. |
| Assets.IndexStable | blsforme/src/bootloader/systemd_boot/mod.rs:519-556 | Appending entries never changes an index; an asset without one can only gain index 0. |
| Assets.LeafDecodes | blsforme/src/bootloader/systemd_boot/mod.rs:623-650 | Base name and index are recovered from a suffixed name. |
| Assets.InstalledNamesBijective | blsforme/src/bootloader/systemd_boot/mod.rs:606-650 | Two assets are installed under one name exactly when key and content agree. |
| Assets.NewAsset | blsforme/src/bootloader/systemd_boot/mod.rs:578-604 | The hash is that of the source alone and the hasher is left empty; it fails only on a missing name, an unreadable file or a read error. |
| Assets.NewHashedEntry | blsforme/src/bootloader/systemd_boot/mod.rs:461-480 | The image, and in order each versioned and each shared initrd, with their contents and as what they are; other files are passed over. Without read errors it fails only if one cannot be hashed. |
| Assets.EntryHashed | blsforme/src/bootloader/systemd_boot/mod.rs:461-480 | What hashing an entry gives is its image, and exactly one asset for each versioned or shared initrd of its kernel, in order, shared exactly when the file is, with the content of the file. |
| Conf.EntryReadsBack | blsforme/src/bootloader/systemd_boot/mod.rs:375-410 | Splitting each emitted line at its first space gives back title, image path, the initrds in order, and options, as in section "Type #1 Boot Loader Specification Entries" of the UAPI.1 Boot Loader Specification. |
| Conf.ReferenceReadsBack | blsforme/src/bootloader/systemd_boot/mod.rs:335-410 | A path written into a configuration resolves to the node it was written for. |
| Cmdlines.LoadEtcCmdline | blsforme/src/cmdline.rs:87-119 | The loop yields the unmasked snippets and the names masked by links to /dev/null. |
| Cmdlines.LoadKernelCmdline | blsforme/src/cmdline.rs:121-160 | The loops yield the kernel's own and the vendor snippets that are not excluded, in order. |
| Cmdlines.FullCmdlineInOrder | blsforme/src/cmdline.rs:51-68 | Its words are those of the root, the kernel, the entry and /etc, in this order. |
| Cmdlines.MaskingIsDeletion | blsforme/src/cmdline.rs:59-160 | Masking equals computing the unmasked command line on a system where the masks and the snippets they name are deleted. |
| Cmdlines.SnippetIsOneLine | blsforme/src/cmdline.rs:73-84 | Whatever a file holds, its snippet is one line; `Arguments.SnippetReads` says which. |
| Cmdlines.FullCmdlineIsOneLine | blsforme/src/cmdline.rs:59-160 | The options value is one line when the root arguments and the entry's own parts are. |
| Arguments.SnippetReads | blsforme/src/cmdline.rs:73-84 | The snippet of a file of lines, ended by a newline or not: what stands between the blanks of each line that is no comment, in order, joined by one space. |
| Arguments.WordsExactly | blsforme/src/cmdline.rs:59-160 | The words of the merged command line are exactly those of the root arguments, of the entry, and of every line that is no comment in a snippet of the kernel, of the vendor directory or of /etc that can be read and is not masked; empty words aside. |
| Loaders.BuildChangeset | blsforme/src/bootloader/systemd_boot/mod.rs:304-322 | One pair of source and destination for the image and for every initrd, in order. |
| Loaders.CopyAll | blsforme/src/bootloader/systemd_boot/mod.rs:329-333 | Emits the operations of the copies one after another, stopping at the first failure; on a sound medium with readable sources a failure means an impossible step. |
| Loaders.WriteConf | blsforme/src/bootloader/systemd_boot/mod.rs:344-369 | Makes the directory if it is missing and writes the text under the entry's own name. |
| Loaders.Install | blsforme/src/bootloader/systemd_boot/mod.rs:284-372 | Every differing pair is copied before the configuration is written, the result names what was installed, and however it ends only its own files are touched; `Layout.AssetsArePlaced` and `Layout.ConfIsPlaced` say how these are called under each schema. |
| Loaders.FindStale | blsforme/src/bootloader/systemd_boot/mod.rs:190-257 | The three lists are exactly the stale configurations, trees and files. |
| Loaders.CleanupStaleEntries | blsforme/src/bootloader/systemd_boot/mod.rs:156-281 | Removes only what is stale, configurations before trees before files, and all of it when no removal fails; `Layout.OursAreRemoved` says whose files these are. |
| Loaders.HashAll | blsforme/src/bootloader/systemd_boot/mod.rs:132-139 | All entries hashed in order; without read errors it fails only if one cannot be hashed. |
| Loaders.InstallAll | blsforme/src/bootloader/systemd_boot/mod.rs:145-148 | Each entry is installed on the disk its predecessors left; a failure on a sound medium leaves the run stuck at an impossible step. |
| Loaders.SyncEntries | blsforme/src/bootloader/systemd_boot/mod.rs:131-153 | A hashing failure changes nothing; an install failure touches only files of the entries; success on a sound medium is a complete run, and copies exactly what differs when no read error occurs. |
| Wanted.RequestIsGenuine | blsforme/src/bootloader/systemd_boot/mod.rs:135-143 | What is installed are the very contents that were hashed. |
| Wanted.RequestUnique | blsforme/src/bootloader/systemd_boot/mod.rs:135-143 | The request is a function of the inputs. |
| Convergence.DestinationsBijective | blsforme/src/bootloader/systemd_boot/mod.rs:302-315 | Over all entries, two assets share a destination exactly when namespace, key and content agree. |
| Recovery.SameOutcome | blsforme/src/bootloader/systemd_boot/mod.rs:131-281 | Complete runs of one request end in the same managed state, whatever the two volumes held, if they keep every asset and their directories and configurations come to be spelled alike. |
| Recovery.SameInputsSameOutcome | blsforme/src/bootloader/systemd_boot/mod.rs:131-281 | The same for two synchronisations of the same entries. |
| Recovery.CutIsOnTrack | blsforme/src/bootloader/systemd_boot/mod.rs:131-281 | From any volume that keeps every asset, whatever a power cut leaves of a run keeps every asset, and its directories come to be spelled as those of the uncut run. |
| Recovery.RecoversFromCut | blsforme/src/bootloader/systemd_boot/mod.rs:131-281 | From any volume that keeps every asset: cut a run anywhere, also inside a copy, lose or tear what was not durable, and one complete run ends in the managed state the uncut run would have had. |
| Idempotence.AlikeJob | blsforme/src/bootloader/systemd_boot/mod.rs:290-341 | What an entry asks for, and where, depends only on how directories and configurations are spelled. |
| Idempotence.RunSettles | blsforme/src/bootloader/systemd_boot/mod.rs:131-281 | From any volume that keeps every asset, a complete run leaves everything asked for in place and nothing stale. |
| Idempotence.SecondRunChangesNothing | blsforme/src/bootloader/systemd_boot/mod.rs:131-281 | From any volume that keeps every asset, a second run copies and deletes nothing, rewrites each configuration with the bytes it has, and leaves the volume as it is after every operation. |
| ConfRefs.ConfNamesSources | blsforme/src/bootloader/systemd_boot/mod.rs:304-343 | At the end each configuration, read back, names files that hold the sources of its image and of its initrds in order. |
| Layout.ConfNamesKernel | blsforme/src/bootloader/systemd_boot/mod.rs:284-410 | After a synchronisation of some entries, the configuration of each names its image and, in order, a file for every versioned and every shared initrd of its kernel, with the contents these have on the system. |
| Layout.ConfCalled | blsforme/src/entry.rs:74-87 | By the schema an entry follows, its own or else the global one: a configuration is called by name (legacy) or id, version and state. |
| Layout.DestCalled | blsforme/src/bootloader/systemd_boot/mod.rs:606-650 | By the schema an entry follows: an asset goes below `EFI` to the namespace (legacy) or id, then to the directory of its version or of shared files, under its own name or `vmlinuz`, with an index exactly if another content has its place and name. |
| Layout.DestSpelled | blsforme/src/bootloader/systemd_boot/mod.rs:293-315 | The namespace is spelled as the volume has it, and under the legacy schema the name too; under the others the rest is as asked for. |
| Layout.AssetsArePlaced | blsforme/src/bootloader/systemd_boot/mod.rs:284-333 | After a complete run every asset is there, so called, with its content. |
| Layout.TitleShown | blsforme/src/bootloader/systemd_boot/mod.rs:398-402 | By schema: the display name or pretty name, else the name, and the version in parentheses. |
| Layout.ConfIsPlaced | blsforme/src/bootloader/systemd_boot/mod.rs:335-410 | After a complete run the configuration of every entry is there, so called, with this title and its command line. |
| Integrity.NoDanglingConf | blsforme/src/bootloader/systemd_boot/mod.rs:145-150 | If every managed configuration names only files that are there before a run, the same holds after every operation of it - the destination a copy is just replacing may be away while its new content waits in the staging file - if and only if whatever the run renames away or removes from `loader/entries` is not named any more: the configurations that named it have been rewritten or removed by then. |
| PowerCut.CutIntact | blsforme/src/bootloader/systemd_boot/mod.rs:131-281 | Cut a run anywhere: in every disk that may be left, torn configurations aside, each managed configuration names files that are there or complete in their staging files, if and only if that is so on the disk the last barrier made durable, and nothing pending takes a file that a configuration there names. |
| PowerCut.TornCutIntact | blsforme/src/bootloader/systemd_boot/mod.rs:131-372 | If configurations may be torn as well, then if and only if moreover none has been written since the last barrier. |
| PowerCut.InstallCutIntact | blsforme/src/bootloader/systemd_boot/mod.rs:145-148 | If the run takes away nothing that is still named, no power cut leaves a configuration dangling until the last entry is installed. |
| Removal.RemovedExactly | blsforme/src/bootloader/systemd_boot/mod.rs:190-278 | Of the files on a volume, staging files aside, a run removes exactly these: prefixed configurations and files directly inside the directories of cleaned namespaces that are not asked for, and whatever lies deeper in such directories as are neither shared nor called like a version. |
| Layout.NothingElseIsOurs | blsforme/src/bootloader/systemd_boot/mod.rs:156-278 | After every complete run from any volume, a configuration whose name starts with one of our identities, former ones included, and a file directly inside a directory of one of our namespaces, is one that is asked for. |
| Layout.OthersStay | blsforme/src/bootloader/systemd_boot/mod.rs:156-278 | A run that reaches its end, under every schema, changes nothing that was there, is not a file of the request, and belongs to none of our identities, former ones included. |
| Layout.OursAreRemoved | blsforme/src/bootloader/systemd_boot/mod.rs:156-278 | Of the files on a volume, staging files aside, a complete run removes exactly those that belong to one of our identities and are not asked for; deep ones only in directories that are neither shared nor of an entry. |
| Layout.SharedDirs | blsforme/src/bootloader/systemd_boot/mod.rs:230-242 | A directory called `shared` stays, except under the legacy schema unless it is an entry's. |
| Exposure.ExposedExactly | blsforme/src/bootloader/systemd_boot/mod.rs:131-281 | Some power cut in a run leaves a managed configuration that names a missing file if and only if, on the volume before it, one names another file that the run removes and no entry that copies comes after an entry that rewrites it, or names a file in which an entry stages a copy and no entry before that one rewrites it; no configuration being torn. |
| Exposure.ExposedByVolume | blsforme/src/bootloader/systemd_boot/mod.rs:131-281 | Without read errors the copies are those of the contents that are neither on the volume nor asked for by an earlier entry, so that this is told by the request and the volume. |
| Exposure.TornBreaks | blsforme/src/bootloader/systemd_boot/mod.rs:344-372 | If configurations may be torn as well, every run that installs anything can leave one dangling: each is written in place, without a barrier of its own. |
| Exposure.DroppedBreaks | blsforme/src/bootloader/systemd_boot/mod.rs:150-281 | A configuration that no entry rewrites names a file that the run removes: whatever is copied, a power cut at the end of the run may leave the configuration without the file. |
| Exposure.DroppedRun | blsforme/src/bootloader/systemd_boot/mod.rs:131-281 | From a volume with nothing in the way there is such a run, and such a cut. |
| Examples.UpgradeBreaks | blsforme/src/bootloader/systemd_boot/mod.rs:131-281 | A concrete upgrade, from one kernel to another: a complete run without read errors, and a power cut at its end after which the old configuration names an image that is not there. |
| Frame.InstallFrame | blsforme/src/bootloader/systemd_boot/mod.rs:284-372 | Under every schema and however far installing gets, nothing else changes than destinations, staging files and the entries' configurations, and the only new directories are on the way to them. |
| Frame.SyncFrame | blsforme/src/bootloader/systemd_boot/mod.rs:131-281 | Under every schema, a run that reaches its end touches beyond that only prefixed loader files and subtrees of directories under the cleaned namespaces. |
| Exactness.PresentIsKept | blsforme/src/bootloader/systemd_boot/mod.rs:230-257 | If whatever leads to the node of an asset agrees with it: when the asset is there as asked for after a run without read errors, it was kept by the volume; so an asset that is not kept is lost by a run that reports success. |
| Exactness.PresentIsSpelled | blsforme/src/bootloader/systemd_boot/mod.rs:230-257 | In a cleaned namespace, a file that survives lies in a directory that some entry spells as the volume does. |
| Exactness.ManagedIsAsked | blsforme/src/bootloader/systemd_boot/mod.rs:156-281 | From any volume, every managed file at the end is one that is asked for. |
| Scaffold.InstallsScaffold | blsforme/src/bootloader/systemd_boot/mod.rs:284-372 | Whichever copies are made, directories are left as by making those of all entries in order, and are called from the start what they are called in the end. |
| Turns.EntriesHold | blsforme/src/bootloader/systemd_boot/mod.rs:145-148 | From any volume, after the first n entries everything they asked for is there, assets and configurations, if the entries agree; so no entry disturbs another. |
| Turns.AssetInstalled | blsforme/src/bootloader/systemd_boot/mod.rs:145-148 | From any volume, when all entries are installed every asset has its content, if the assets agree. |
| Exactness.CleanupSparesKept | blsforme/src/bootloader/systemd_boot/mod.rs:225-278 | Cleaning up removes nothing at or above an asset that the volume keeps, if the assets agree. |
| Exactness.CleanupSparesConf | blsforme/src/bootloader/systemd_boot/mod.rs:225-278 | Nor a configuration of the entries, if the configurations agree. |
| Exactness.KeptConverges | blsforme/src/bootloader/systemd_boot/mod.rs:131-372 | Every complete run from any volume that keeps every asset converges: the managed files are exactly those asked for, if the entries agree. |
| Exactness.ConvergesExactly | blsforme/src/bootloader/systemd_boot/mod.rs:131-372 | A run without read errors converges if and only if the entries agree on every node they share, assets and configurations, and the volume keeps every asset. |
| Exactness.ConvergedAgrees | blsforme/src/bootloader/systemd_boot/mod.rs:623-650 | Whatever a run did, if it converged the entries agree. |
| Exactness.ReadyIsKept | blsforme/src/bootloader/systemd_boot/mod.rs:131-281 | In the usual case the entries agree and the volume keeps every asset. |
| Exactness.SyncConverges | blsforme/src/bootloader/systemd_boot/mod.rs:131-372 | The same for a list of entries. |
| Examples.CapitalsLoseTheImage | blsforme/src/bootloader/systemd_boot/mod.rs:202-257 | A concrete kernel and volume, the directory of the kernel in capitals: there is a run that succeeds, after which the image is gone. |
| Examples.TwinsNeverConverge | blsforme/src/bootloader/systemd_boot/mod.rs:623-650 | Two versions that differ only in case, with different images: no run from any volume converges. |
| Examples.TwinsConverge | blsforme/src/bootloader/systemd_boot/mod.rs:623-650 | With the same image, every run from the empty volume does, although the request is not tidy. |
| Examples.TwinsRun | blsforme/src/bootloader/systemd_boot/mod.rs:131-153 | There are such runs. |
| Feasible.CanCopy | blsforme/src/file_utils.rs:95-138 | A copy can be carried out when its destination and staging file are not directories and no file lies above them. |
| Feasible.NeverStuck | blsforme/src/bootloader/systemd_boot/mod.rs:145-148 | With nothing in the way of the files of the request, no installation gets stuck, whatever has to be copied. |
| Recovery.NeverStuckAfterCut | blsforme/src/bootloader/systemd_boot/mod.rs:131-281 | Nor does any after a power cut anywhere in a run, if nothing was in the way before that run. |
| Feasible.RunExists | blsforme/src/bootloader/systemd_boot/mod.rs:131-281 | From every volume with nothing in the way there is a complete run that copies exactly what differs. |
| Recovery.RecoveryExists | blsforme/src/bootloader/systemd_boot/mod.rs:131-281 | After every power cut in a run there is a complete run, and it ends in the managed state of the uncut one. |
| Feasible.SyncNeverStuck | blsforme/src/bootloader/systemd_boot/mod.rs:131-153 | For a list of entries that can be hashed, with nothing in the way: the sources can be read and no choice of copies gets stuck, so on a sound medium installing does not fail. |
| Feasible.EmptyVolumeClear | blsforme/src/bootloader/systemd_boot/mod.rs:131-153 | On the empty volume nothing is in the way of any request. |
| Feasible.EmptyVolumeReady | blsforme/src/bootloader/systemd_boot/mod.rs:131-153 | For tidy and genuine requests the empty volume is the usual case. |
| Feasible.OneKernelTidy | blsforme/src/bootloader/systemd_boot/mod.rs:284-372 | A request for one kernel without initrds is tidy. |
| Order.TreeSetHolds | blsforme/src/kernel.rs:289-289 | Collecting into a tree set gives an ascending sequence of exactly the given paths. |
| Order.TreeSetOfSet | blsforme/src/kernel.rs:289-289 | It depends only on which paths are given. |
| Order.DictionaryOrder | blsforme/src/kernel.rs:399-404 | Strings compare by the first character that differs; a prefix comes first. |
| Order.TreeSetInOrder | blsforme/src/kernel.rs:289-289 | Paths compare by the first component that differs, root before parent before names, and names by their first character that differs. |
| Order.SortByStable | blsforme/src/kernel.rs:399-404 | Sorting by key is ascending, keeps items of equal key in order and permutes. |
| Order.StableUnique | blsforme/src/kernel.rs:399-404 | That determines the result. |
| Discovery.FindImages | blsforme/src/kernel.rs:292-309 | One candidate for each version, the last image winning. |
| Discovery.FindVersioned | blsforme/src/kernel.rs:314-367 | The loop collects the kernel's own initrds and extra files, and fails exactly when a path of the kernel has no name. |
| Discovery.AddShared | blsforme/src/kernel.rs:373-394 | The retain and push loop: each shared initrd replaces whatever has its name. |
| Discovery.BlsformeKernels | blsforme/src/kernel.rs:288-408 | Fails exactly when some kernel's files cannot be read; otherwise one kernel for each version, as specified, in some order. What is specified, `KernelFiles.VersionsExactly`, `InitrdsExactly`, `ExtrasExactly` and `FilesInOrder` say by characters. |
| Overrides.GreatestImage | blsforme/src/kernel.rs:292-309 | A version is found exactly when an image lies in a directory of that name, and the greatest such path wins. |
| Overrides.CollectedExactly | blsforme/src/kernel.rs:314-367 | Exactly the files of known names below the kernel's directory, with their kinds, are collected. |
| Overrides.CollectedOnce | blsforme/src/kernel.rs:314-367 | Each once, in path order. |
| Overrides.SharedOverrides | blsforme/src/kernel.rs:373-404 | Of every name occurring below initrd.d there is a greatest path, and a kernel has exactly one initrd of that name in the end: the shared one, at that path. |
| Overrides.OthersSurvive | blsforme/src/kernel.rs:373-404 | Of every other name it keeps its own, in order. |
| Overrides.ListsSorted | blsforme/src/kernel.rs:396-404 | Both lists are permutations of what was collected, in dictionary order of lower-cased names, stably so. |
| Overrides.DiscoveryOfSet | blsforme/src/kernel.rs:288-408 | Reordering or repeating the given paths changes nothing, and the kernels returned agree up to order. |
| Overrides.DiscoveredOrderly | blsforme/src/kernel.rs:288-408 | Image and initrds of every discovered kernel are named as installation relies on, and sorted. |
| KernelFiles.KindsByName | blsforme/src/kernel.rs:325-355 | A name stands for a kind of file exactly if it is the fixed name of the kind or ends as files of the kind do. |
| KernelFiles.FailsExactly | blsforme/src/kernel.rs:312-323 | Discovery fails exactly when something below the directory of a chosen image, not called like the image or the version, has no name. |
| KernelFiles.VersionsExactly | blsforme/src/kernel.rs:291-309 | Otherwise a version is found exactly when some path ends in it and `vmlinuz`, and its image is the greatest such path, compared by components and characters. |
| KernelFiles.ExtrasExactly | blsforme/src/kernel.rs:314-367 | Its extra files are exactly the paths below its directory named as symbol map, configuration, boot description or snippet. |
| KernelFiles.InitrdsExactly | blsforme/src/kernel.rs:314-394 | Its initrds are exactly, of every name below `initrd.d` beside its directory, the greatest path, as a shared one, and of every other name those below its own directory, shared or not by their ending. |
| KernelFiles.FilesInOrder | blsforme/src/kernel.rs:395-404 | Both lists stand in dictionary order of their lower-cased names, by the first character that differs. |
| Installed.InstalledKernels | blsforme/src/bootloader/systemd_boot/mod.rs:412-449 | What discovery makes of exactly the entries of the directories below the namespace, nothing if it fails; an error exactly when there is no namespace directory. |
| Rediscovery.OrderlyWellNamed | blsforme/src/bootloader/systemd_boot/mod.rs:461-480 | The assets of a discovered kernel are named as the synchroniser relies on. |
| Rediscovery.InstalledLayout | blsforme/src/bootloader/systemd_boot/mod.rs:412-441 | After a run what is listed are exactly the assets the entries place there, each node under the spelling the volume has, and the directories that lay inside a directory which cleaning up keeps. |
| Rediscovery.Rediscovers | blsforme/src/bootloader/systemd_boot/mod.rs:412-449 | After a collision-free run of discovered kernels with distinct versions, discovery finds exactly the versions whose directories the volume calls so, each with its image and its own initrds' names in the same order and nothing else, exactly if no directory in its own passes for one of its files; the only other kernel it finds is a directory that passes for a shared image. |
| Rediscovery.InstalledAreSynchronised | blsforme/src/bootloader/systemd_boot/mod.rs:412-449 | Whatever order the listing has, what is returned are the kernels of the entries, each once, and no others, if and only if the directory of each version comes to be called so, and no directory on the volume passes for a kernel or for a file of one of them. |
| Examples.TwinsAreOne | blsforme/src/bootloader/systemd_boot/mod.rs:412-449 | Two versions that differ only in case, with the same image: after any run from the empty volume what is read back is not what was synchronised. |
| Examples.StrayIsFound | blsforme/src/bootloader/systemd_boot/mod.rs:412-449 | A directory called like an initrd in the directory of a kernel: what is read back after any run is not what was synchronised. |
| Examples.StrayRun | blsforme/src/bootloader/systemd_boot/mod.rs:412-449 | There are such runs. |
| Chains.BelowShrinks | crates/topology/src/disk/probe.rs:87-113 | The measure by which the recursion ends on every acyclic system. |
| Chains.BackedBy | crates/topology/src/disk/probe.rs:87-107 | A device that resolves to a listed block device is backed by the names in its `slaves`, in order, if there are any; which error there is otherwise. |
| Chains.EdgesExactly | crates/topology/src/disk/probe.rs:87-110 | A device is directly backed by another exactly when that is listed in its `slaves`. |
| Chains.GetDeviceChain | crates/topology/src/disk/probe.rs:87-113 | Ends, fails exactly when a device it meets cannot be resolved, and otherwise lists the end of every downward walk. |
| Chains.WalksExactly | crates/topology/src/disk/probe.rs:87-113 | The walks are exactly the nonempty downward paths. |
| Chains.WalksOnce | crates/topology/src/disk/probe.rs:87-113 | Each path is listed once. |
| Chains.ChainElements | crates/topology/src/disk/probe.rs:87-113 | The devices listed are exactly those reachable by at least one edge. |
| Chains.ChainFollowed | crates/topology/src/disk/probe.rs:87-113 | Every device with backing devices is directly followed by the first of them. |
| Chains.TipIsBare | crates/topology/src/disk/probe.rs:137-141 | The last device of the list has no backing devices. |
| Chains.RootfsTip | crates/topology/src/disk/probe.rs:137-141 | The tip has no backing devices, and with the devices before it makes up the whole list. |

## Left out

- Real file systems: memory mapping, `syncfs` and rename are operations of the abstract volume; a rename and the removal of one file are atomic, a write or a tree removal may be torn, and of the operations since the last barrier any may be lost but those kept take effect in order.
- Errors while listing a directory are not modelled; a listing gives all entries, in any order.
- Hashing is taken to be injective on content.
- Lower-casing is that of ASCII; file names are total strings, nonempty and without a slash. FAT restrictions on characters and lengths do not appear.
- Paths on the volume are relative to the mount point, so the prefix of `boot_root` and its stripping do not appear.
- State identifiers are integers of any size instead of 32 bits.
- Sources do not change during a run, and nobody else writes to the volume.
- Whether a run without read errors happens is up to the medium: `clean` and `errors` report it, and nothing forces them.
- Recovery.RecoversFromCut: the run that follows the cut is a complete one; `Recovery.NeverStuckAfterCut` says when it can be carried out.
- Idempotence.SecondRunChangesNothing: for a second run without read errors; a read error makes it copy identical files again.
- PowerCut.CutIntact: counts a file that is away as present while its complete new content waits in the staging file; the boot loader would not find it, the next run does.
- Installed.InstalledKernels: not for the legacy schema, whose discovery is not part of this model.
- Rediscovery.Rediscovers: for requests without collisions, since a suffix changes the name that is read back.
- Legacy discovery: not part of this model. Of the legacy layout there are the names (`Layout.ConfCalled`, `Layout.DestCalled`, `Layout.DestSpelled`) and the frame results; whether a legacy run converges is not told, since cleaning up does not collect its files.
- `Loader::sync`, the installation of the boot loader itself, is another use of the same copy.
- Mounting, partition tables, superblocks, EFI variables and the command line tool make calls with little logic of their own.
- Termination of the device walk on a cyclic system: the program does not end there, and the model asks for an acyclic one.
