# A verified model of the FAT filesystem and the NFS message codec

This project models two parts of the repository and proves properties of them.

**The filesystem of `FAT/fat.c`.** A disk of `N` clusters of `B` bytes: cluster 0 is the superblock,
clusters `1..K` the FAT, cluster `K + 1` the root directory. The free clusters form a linked list in the
FAT, files and directories are cluster chains, a directory is an array of 40-byte slots over its chain.

- `volume.dfy` holds the bytes: class `Volumes.Volume` has the superblock and the FAT kept in memory and
  the clusters on the disk, and methods that write one cluster each. A ghost trace records every cluster
  write and the disk image it left.
- `allocator.dfy`, `directory.dfy`, `filedata.dfy`, `reading.dfy`, `writing.dfy`, `listing.dfy`,
  `filesystem.dfy` and `mounting.dfy` hold the routines of the program as methods on the volume: their loops,
  their order of writes, their error returns.
- `state.dfy` defines the logical state (free-list head, successor of every cluster, bytes of every cluster) and
  cluster writes as steps on it. `layout.dfy` and `tree.dfy` state the invariant: `Layouts.StructOk` (free list, live
  chains and orphans share out the clusters) and `Trees.TreeOk` (the live entries form a tree).
- `machine.dfy` is the state machine: for each operation `PlanOf` gives the cluster writes, the reply and the
  layout. Every `Fat…` method is proved to issue exactly these writes and to return exactly this reply.
- `flat.dfy` is a filesystem without clusters (files as byte sequences, directories as lists of entries, a number
  of free clusters); `refinement.dfy` and `history.dfy` prove that the disk follows it over every run, and say exactly
  when a reply of the program differs from its own; `misreports.dfy` puts that in bytes and numbers. `created.dfy` says
  what a creation leaves under its path. `witnesses.dfy` reaches each exceptional case on every disk.
- `theorems.dfy` and `dirmap.dfy` state what holds in every reachable state. `intact.dfy` and `crashes.dfy` say what an
  interruption leaves of each operation, `tails.dfy` and `stale.dfy` what becomes of the bytes behind the end of a file.

**The XDR codec of `NFS/nfs_xdr.c`.** `xdr.dfy` describes the shapes that occur in the messages (numbers, bounded
opaques and strings, structures, two kinds of union, arrays, linked lists) and gives one encoder and one decoder over
such descriptions, following RFC 4506 for the primitives. `nfs.dfy` composes the sixteen NFSv3 and MOUNT messages as
the code does, `wire.dfy` checks the composition against the bytes of every message, written out field by field in the
order of `NFS/nfs.x`. `octets.dfy` says what all of this is in octets and literal bounds, `pathconf.dfy` treats the
result with an inline path. `xdrstream.dfy` is the codec as it runs, on a stream that every step advances.

Conventions. `Times(k, n)` is `k * n`. A ghost parameter `L` (or `C`, `F`) names the layout (or the chain, or the
free list) that the state on disk has; the code finds it by following the FAT. `Open(u)` is always true and serves to keep
large definitions folded. `Aborted` is the reply of an operation in which an assertion of the program fails, before any write.
`Wild` is that of an allocation short by exactly one cluster: line 246 of FAT/fat.c reads the word at the place of an entry for
cluster 0, makes it the free-list head and writes the superblock, then the assertion of line 203 fails. The word is no part of
the modelled FAT (`Allocator.EntryOfClusterZero`), so it is an input of the operation (`stray`; None if the read itself ends
the program). Both replies end the program: a run (`Machine.IsRun`) has no `Wild` operation and nothing after an `Aborted` one.

Premises. The geometry is a parameter: 4 divides `B`, the FAT holds an entry for every data cluster, the disk has at most
2^32 bytes (`Geometry.Valid`). The entry size divides `B` (`Entries.Slotted`) wherever the slot loops run. Paths are those a
kernel passes down (`Machine.KernelPath`): absolute, no empty component, the parent not a file, the last name not a dot
name. Write buffers are not empty and offset plus size stays below 2^32 (`Machine.Sane`). Disk reads and writes succeed.

## Model

| member | source | states |
|---|---|---|
| `Volumes.Volume.UpdateFatEntry` | FAT/fat.c:202-217 | One entry changes in memory and, although only one FAT cluster is written, the FAT area of the disk equals the table in memory again; the write is one step of the logical state. |
| `Volumes.Volume.WriteFreeStart` | FAT/fat.c:158-164 | The superblock on disk again equals the one in memory; one step of the logical state. |
| `Volumes.Volume.WriteCluster` | FAT/fat.c:147-152 | One data cluster changes, nothing else; one step of the logical state. |
| `Volumes.Volume.InitFat` | FAT/fat.c:663-668 | The loop leaves a table in which the root ends its chain and every later cluster but the last points at the next. |
| `Volumes.Volume.Format` | FAT/fat.c:644-649 | A new disk: memory and disk agree, all clusters behind the root form one zeroed chain headed by the superblock. |
| `Volumes.Volume.Mount` | FAT/fat.c:640-643 | Reading superblock and FAT back gives a coherent volume whose state is the one the bytes stand for. |
| `Volumes.FatClusterWrite` | FAT/fat.c:209-214 | Writing back only the FAT cluster that holds the changed word updates the state on disk in that entry alone. |
| `Volumes.SuperFields` | FAT/fat.c:46-59 | The six words of the superblock cluster, each at its place: cluster size, clusters, FAT clusters, 32, root, free-list head. |
| `States.ProgramGeometry` | FAT/fat.c:36-42 | The premises on the geometry hold for the constants of the program. |
| `Chains.ChainIsAcyclic` | FAT/fat.c:177-187 | A chain that ends in 0 visits no cluster twice, so every chain walk terminates. |
| `Chains.ChainIsUnique` | FAT/fat.c:177-187 | A start cluster determines its chain. |
| `Allocator.PopFreeClusters` | FAT/fat.c:232-261 | For every `n` and free list `F`: with `n` or more clusters the first `n` are taken, cut off and zeroed; with `n - 2` or fewer nothing changes and no cluster is returned; with exactly `n - 1` the word read for cluster 0 becomes the free-list head, in memory and on disk, and the program stops. |
| `Allocator.PopSplits` | FAT/fat.c:245-258 | After an allocation the taken clusters are a chain of their own in free-list order, hold zeros only, and the rest is the free list. |
| `Allocator.EntryOfClusterZero` | FAT/fat.c:169-175 | In 32-bit arithmetic every data cluster's entry lies in the table and none is the word read for cluster 0, which lies outside the table exactly when table and metadata leave room below 2^32, as with the program's constants. |
| `Allocator.FreeThenPop` | FAT/fat.c:232-292 | Releasing a chain and allocating as many clusters gives the same chain in the same order, zeroed, and restores free list and FAT. |
| `Allocator.FreeClusterChain` | FAT/fat.c:283-292 | Links the end of the chain to the old free list and makes its start the new head, in this order. |
| `Allocator.AddFreeCluster` | FAT/fat.c:267-275 | Takes one cluster and links it to the end of the chain. |
| `Allocator.LastCluster` | FAT/fat.c:177-187 | The walk ends at the last cluster of the chain. |
| `Allocator.CountClusterInChain` | FAT/fat.c:192-195 | Returns the length of the chain. |
| `Allocator.WalkChain` | FAT/fat.c:583-587 | `i` steps along the chain lead to its cluster `i`, never past its end. |
| `Entries.DecodeEncode` | FAT/fat.c:61-67 | The 40-byte record gives back the entry stored in it. |
| `Entries.RecordOctets` | FAT/fat.c:61-67 | Its fields, byte by byte: 22 bytes of name, then type, size, first cluster and time, least significant byte first. |
| `Entries.CNameIs` | FAT/fat.c:419-435 | The name compared is what precedes the first NUL of the name field. |
| `Entries.SlotWriteEffect` | FAT/fat.c:524-546 | Rewriting one slot is one cluster write, and changes that slot of the directory and no other. |
| `Entries.KillIsByteWrite` | FAT/fat.c:532-533 | Zeroing the first byte of a slot changes nothing of the entry but that its name becomes empty. |
| `Directory.FindDirEntryByName` | FAT/fat.c:419-435 | The search over the clusters of a chain is first match over the flat list of its slots. |
| `Directory.UpdateDirEntry` | FAT/fat.c:524-546 | Rewrites, or empties, the first slot with the given name, by one cluster write; fails exactly if there is none. |
| `Directory.AddDirEntryToCluster` | FAT/fat.c:337-388 | Fills the first free slot of the chain, or slot 0 of a new cluster linked to its end; fails exactly for an empty or over-long name, or a full chain with no free cluster, and then writes nothing. |
| `Directory.IsDirEmpty` | FAT/fat.c:393-411 | True exactly if every slot of the whole chain is free or a dot entry. |
| `DirMap.InsertedIsFound` | FAT/fat.c:337-388 | After inserting an absent name it is found, also when the directory grew; every other name is found as before. |
| `DirMap.RemovedIsGone` | FAT/fat.c:524-546 | After a removal the name is gone exactly if it occurred once; every other name is found as before. |
| `DirMap.UpdatedIsFound` | FAT/fat.c:577-581 | After an update under the same name the new entry is found; every other name is found as before. |
| `DirMap.MadeIsFound` | FAT/fat.c:492-517 | The same on the disk, for a successful creation. |
| `DirMap.UnlinkedIsGone` | FAT/fat.c:970-990 | The same on the disk, for a removal. |
| `Listing.ReadDirEntries` | FAT/fat.c:298-327 | From any slot on, the live entries with their offsets, up to the number the filler takes. |
| `Listing.PendingIsExact` | FAT/fat.c:306-323 | The listing holds, in ascending order, exactly the name of every slot in use with the offset 40 (j + 1) of the slot behind it. |
| `Listing.ListedIsFound` | FAT/fat.c:298-327 | The names listed are the names a lookup in the directory finds. |
| `Listing.SessionIsListing` | FAT/fat.c:298-327 | However a listing is cut into calls that take at least one entry each, resuming at the offset of the last entry taken, the calls together give a prefix of the listing, and at least as many entries as calls until it is complete. |
| `Listing.EmptyPieceEndsListing` | FAT/fat.c:298-327 | A session in which one more call gives nothing has given the whole listing. |
| `Paths.GetParentPath` | FAT/fat.c:83-90 | The backward scan yields the part before the last slash. |
| `Paths.GetTargetName` | FAT/fat.c:96-105 | The backward scan yields the part behind the last slash, which holds no slash. |
| `Paths.SplitRebuilds` | FAT/fat.c:83-105 | Parent, slash and target rebuild every path that holds a slash. |
| `Paths.SplitIsUnique` | FAT/fat.c:83-105 | No other split into a parent and a target without slash does. |
| `Paths.JoinedIsNormal` | FAT/fat.c:83-105 | Names joined by slashes are taken apart into the same names, parent and target again. |
| `Machine.KernelPaths` | FAT/fat.c:441-473 | Every such path is accepted whose last name is no dot name and whose parent, if it exists, is a directory. |
| `Machine.ArgumentBounds` | FAT/fat.c:892-960 | Taken are all writes that are not empty and end below 2^32, all sizes below 2^32, and all other requests. |
| `Paths.FindIsResolve` | FAT/fat.c:441-473 | The strsep walk over the parent followed by the lookup of the target is component-by-component lookup from the root. |
| `Machine.FindFailsExactly` | FAT/fat.c:441-473 | In a consistent filesystem the lookup of a path fails exactly when some name is missing, or is no directory although more names follow. |
| `Filesystem.FindDirEntryByPath` | FAT/fat.c:441-473 | The strsep loop on the volume computes this resolution, and refuses the root. |
| `Filesystem.FindParent` | FAT/fat.c:478-486 | The first cluster of the parent directory; the root for a path without parent. |
| `Files.WritesAreSplice` | FAT/fat.c:589-631 | Writing a buffer cluster by cluster is one splice of the concatenated bytes; other clusters keep their bytes. |
| `FileData.WriteFileData` | FAT/fat.c:583-632 | The first cluster, the clusters written without reading and the last partial one make up exactly the writes of that splice. |
| `Update.UpdateIsSplice` | FAT/fat.c:552-632 | After a write the file's chain bytes are the old ones, lengthened by zeroed clusters, with exactly the written range replaced; the size is the larger of old size and end of the write; every other object is untouched except this file's slot. |
| `Update.UpdateIsCrashSafe` | FAT/fat.c:552-632 | After every single cluster write of it some layout makes the disk consistent in which every object is where it was and keeps its clusters. |
| `Writing.UpdateFile` | FAT/fat.c:552-632 | Issues exactly these writes, in this order; out of space it writes nothing, and short by exactly one cluster at most the superblock, with the stray word as head. |
| `Reading.ReadIsExactWhenAligned` | FAT/fat.c:864-888 | What fat_read collects is the range asked for, whatever the file holds, exactly if the offset is a multiple of the cluster size. |
| `Reading.ReadBytesAt` | FAT/fat.c:864-888 | Byte by byte: those of the first cluster come from as many bytes too early as the offset lies in it, the others from the right place. |
| `Reading.ReadFile` | FAT/fat.c:859-889 | The loop collects these bytes, cut at the end of the file, and never leaves the chain. |
| `Mounting.FatRead` | FAT/fat.c:852-890 | The bytes it returns at every offset: up to the end of the first cluster they are taken from that cluster's start, so at a multiple of the cluster size, and for all contents only there, they are exactly the range up to the size of the file; nothing at or past the end. |
| `Make.MakeFileIsCrashSafe` | FAT/fat.c:492-517 | Creating a file is crash safe in the same sense, whether or not the insertion into the parent succeeds. |
| `Make.MakeDirKeepsInv` | FAT/fat.c:492-517 | Creating a directory keeps the invariant, although its dot entries are written after it is entered into the parent. |
| `Filesystem.AddDirEntry` | FAT/fat.c:492-517 | Issues the writes of the state machine and reports success whatever the insertion returned. |
| `Release.RemoveKeepsInv` | FAT/fat.c:970-990 | Removing an object that holds no other keeps the invariant, puts its chain in front of the free list in order, and empties its slot. |
| `Release.ShrinkKeepsInv` | FAT/fat.c:935-959 | Shrinking keeps the invariant, keeps the clusters up to the one that holds the new end, and puts the rest in front of the free list in order. |
| `Release.CutByDivision` | FAT/fat.c:936-942 | That number of clusters is size / B + 1. |
| `Crashes.FirstFreeWriteExactly` | FAT/fat.c:283-289 | After the first write of a removal the disk is consistent, with nothing but free clusters lost, exactly if the free list was empty. |
| `Crashes.FreedIsInconsistent` | FAT/fat.c:289-291 | After the second it never is: the chain of a live object heads the free list. |
| `Crashes.RemovalIsNeverCrashSafe` | FAT/fat.c:970-990 | So no unlink and no rmdir is crash safe, whatever the state. |
| `Crashes.ShrinkIsSteadyExactly` | FAT/fat.c:935-959 | A shrink leaves the disk consistent after every write, with the parent still a directory, exactly if the clusters it keeps held the whole file already. |
| `Crashes.MkdirIsCrashSafeExactly` | FAT/fat.c:492-517 | A mkdir is crash safe exactly if its insertion into the parent fails; otherwise the parent names a blank cluster as a directory until the dots are there. |
| `Intactness.UpdateIsIntact` | FAT/fat.c:552-632 | After any prefix of its cluster writes, every object but file and parent has its chain and bytes, every entry of the parent its name, kind and first cluster, and the file a part of the buffer, from its start, in place and its old bytes everywhere else. |
| `Intactness.MakeIsIntact` | FAT/fat.c:492-517 | After any prefix of the cluster writes of a mknod every other object has its chain and bytes, and the parent every entry it had. |
| `Filesystem.FatMknod` | FAT/fat.c:829-838 | For a regular file the same writes and reply as the state machine; anything else is denied without a write. |
| `Filesystem.FatMkdir` | FAT/fat.c:783-789 | Same writes and reply as the state machine. |
| `Filesystem.FatWrite` | FAT/fat.c:892-908 | Same writes and reply as the state machine. |
| `Filesystem.FatTruncate` | FAT/fat.c:910-960 | Same writes and reply as the state machine: nothing, an extension by zeros, or a shrink. |
| `Filesystem.FatUnlink` | FAT/fat.c:970-990 | Same writes and reply as the state machine. |
| `Filesystem.FatRmdir` | FAT/fat.c:791-813 | Same writes and reply as the state machine; the emptiness check comes first. |
| `Filesystem.Serve` | FAT/Makefile:17 | Any number of requests, one after another, until one ends the program: memory and disk agree after each, and volume and replies follow the state machine. |
| `Machine.OperationKeepsInv` | FAT/fat.c:783-990 | Every operation whose allocation is not short by exactly one cluster leads from a consistent filesystem to a consistent one. |
| `Machine.RmdirExactly` | FAT/fat.c:791-813 | A directory is removed exactly if no object has it for a parent, that is, if no name but "." and ".." is found in it; else nothing is written and the answer is "not empty". |
| `Machine.UnlinkExactly` | FAT/fat.c:970-990 | An unlink succeeds exactly for a file; else nothing is written. |
| `Created.CreationIsFound` | FAT/fat.c:337-388 | After a mknod or mkdir under an absent name its path leads to a record with that name, kind, size 0, the first free cluster and the time, exactly if the name has at most 21 bytes and the parent a free slot or a second cluster is free; else to nothing. |
| `Created.CreationKeepsPaths` | FAT/fat.c:492-517 | Every path that led to an entry before leads to the same entry after it. |
| `Created.CreatedObject` | FAT/fat.c:508-513 | The new object is a file of one cluster of bytes 0, or a directory whose first slots are "." and ".." and whose others are free. |
| `Created.MkdirThenRmdir` | FAT/fat.c:783-813 | A directory that was just made can be removed, in every state in which it could be entered. |
| `Created.ThereAndBackHappens` | FAT/fat.c:783-813 | On every disk: a mkdir and an rmdir of the same name answer success. |
| `Theorems.ShortByOneExactly` | FAT/fat.c:243-250 | After an allocation short by exactly one cluster the disk has lost nothing but free clusters exactly if the read for cluster 0 ended the program or found 0 or a free cluster; the free clusters before that one, all for 0, are then lost. |
| `Theorems.FreshIsConsistent` | FAT/fat.c:677-697 | A fresh format is consistent. |
| `Theorems.ChainsAreSeparate` | FAT/fat.c:232-292 | In every consistent state chains are acyclic and end in 0, no two objects share a cluster, none is on the free list, and no FAT entry points at the root or at metadata. |
| `Theorems.ClustersAreConserved` | FAT/fat.c:815-827 | Free clusters, clusters of live objects and orphans add up to the total that fat_statfs reports. |
| `Theorems.OrphansGrowExactly` | FAT/fat.c:492-517 | Unless an allocation is short by exactly one, an operation makes an orphan exactly when it is a creation whose insertion into the parent fails; then it makes one, and reports success. |
| `Theorems.OrphansOverRun` | FAT/fat.c:492-517 | So over every run the orphans grow by the number of such creations. |
| `Theorems.RouteLeadsThere` | FAT/fat.c:508-513 | Every live object is reached from the root along the slots of its parents. |
| `Theorems.RouteIsUnique` | FAT/fat.c:508-513 | By no other list of slots: the live entries form a tree. |
| `Theorems.DotsNameParents` | FAT/fat.c:510-513 | In each directory "." is found and names it, ".." is found and names the directory that holds it, and no live entry names a free cluster. |
| `Theorems.FilesFit` | FAT/fat.c:562-575 | Every file has a chain of at least one cluster, and its size fits it. |
| `Refinement.OperationIsFlat` | FAT/fat.c:783-990 | For every operation the flat filesystem foretells the exact reply of the program (`Refinement.Answer`) and, unless an allocation is short by exactly one cluster, the effect on the disk is its effect. |
| `Refinement.AnswerDiffersExactly` | FAT/fat.c:791-813 | That reply is the one of the flat filesystem except in two cases that the caller can check before: an rmdir of a file whose bytes show an entry ("not empty" for "not a directory") and an extension by 2^32 - 12 bytes for which more than one cluster is missing (success for failure); exactly there it differs, and nothing changes. |
| `Misreporting.LooksFullExactly` | FAT/fat.c:393-411 | The first of these cases byte by byte: some 40-byte slot of the file's clusters starts with a name other than ".", ".." and the empty one. |
| `Misreporting.FalseSuccessExactly` | FAT/fat.c:927-933 | The second in numbers: the file grows by 4294967284 bytes and the new size exceeds its clusters, the free ones and one more. |
| `Refinement.TruncateIsTrueExactly` | FAT/fat.c:927-933 | After a truncate that answers success the file has the size asked for, exactly unless it was that extension; then nothing has changed. |
| `Witnesses.ShortByOneHappens` | FAT/fat.c:243-250 | On every disk: make a file and write the first byte that the free clusters do not reach; the allocation is short by exactly one. |
| `Witnesses.FalseSuccessHappens` | FAT/fat.c:927-933 | On every disk: make a file and extend it to 2^32 - 12 bytes; the answer is success, and the file is as empty as before. |
| `Witnesses.FileTakenForDirectory` | FAT/fat.c:803-808 | On every disk: make a file, write the byte 7, and rmdir it; the answer is "not empty". |
| `Witnesses.LostClusterHappens` | FAT/fat.c:508-513 | On every disk: a mknod whose name is 22 bytes long answers success and leaves one orphan. |
| `Refinement.RunIsFlat` | FAT/fat.c:783-990 | Every run of the disk ends where a run of the flat filesystem ends that creates every object under a new name, and its replies are exactly the ones foretold. |
| `Refinement.EveryRunIsSafe` | FAT/fat.c:677-990 | From a fresh format every run stays consistent, conserves the clusters and follows the flat filesystem; its orphans number as many as its creations whose insertion failed. |
| `Refinement.WriteIsSeen` | FAT/fat.c:552-632 | A reader of the file sees the buffer in its range, the old bytes elsewhere, and in a gap behind the old end the bytes the clusters held there; a longer file gets its new size and the time in its entry, nothing else changes there. |
| `Refinement.WriteSpaceExactly` | FAT/fat.c:562-575 | A write succeeds, and returns its length, exactly if the file's clusters and the free ones hold its end, and takes as few as hold it; one cluster short ends the program, more give "no memory", without a change. |
| `Tails.ShrinkTailsExactly` | FAT/fat.c:935-959 | With zeros behind the end of every file, a shrink keeps it so exactly if it drops no byte that is not zero from the last cluster it keeps; the caller can read these bytes before. |
| `Tails.StepTailsExactly` | FAT/fat.c:783-990 | Every other operation keeps it so: a new file, a write at any offset, an extension, a removal. |
| `Tails.GapsAreZero` | FAT/fat.c:577-598 | So after every run from a fresh format without such a shrink, a write past the end of any file leaves a gap of zeros. |
| `Stale.OldByteShows` | FAT/fat.c:936-957 | On every disk there is a run (make, write, shrink, write past the end) after which a reader sees a byte the shrink had cut off. |
| `Refinement.ExtensionIsSeen` | FAT/fat.c:927-933 | A successful extension is seen as the old contents followed by bytes 0 up to the new size, whatever lay behind the end. |
| `Refinement.ShrinkIsSeen` | FAT/fat.c:935-959 | A shrink is seen as the first bytes of the old contents; the entry gets the new size and keeps the rest. |
| `Mounting.FatInit` | FAT/fat.c:677-697 | Formatting ends in the fresh state: the root with its two dot entries, every other cluster free. |
| `Mounting.Remount` | FAT/fat.c:699-704 | Mounting again at any time between operations gives the same superblock, FAT, free list, chains and lookups. |
| `Mounting.PerformGrowing` | FAT/fat.c:552-632 | The bytes on disk after each cluster write of a write, an extension or the creation of a file are a mountable, consistent filesystem that lost nothing but free clusters: every object, every name, and every byte except in the range being written. |
| `Mounting.RecoveredIsSound` | FAT/fat.c:245-257 | In such a disk the free list is disjoint from every live chain and each file fits its chain. |
| `Mounting.MountLeftover` | FAT/fat.c:699-704 | What an interruption left can be mounted, and all objects are where they were. |
| `Mounting.FatStatfs` | FAT/fat.c:815-827 | The free count is the length of the free list, and with used and orphaned clusters gives the total. |
| `History.ReadAfterHistory` | FAT/fat.c:677-890 | Format, any run with an unmount and a mount between any of its requests, a last mount, a read at a multiple of the cluster size: the bytes are those of the flat filesystem after the same run, and the replies were the ones it foretells. |
| `Xdr.EncodesExactly` | NFS/nfs_xdr.c:189-226 | Encoding succeeds exactly on values within the bounds of their type. |
| `Xdr.EncodesWords` | NFS/nfs_xdr.c:801-844 | Every encoding is a multiple of four bytes long. |
| `Xdr.RoundTrip` | NFS/nfs_xdr.c:314-365 | Decoding an encoding followed by anything gives the value with its bools normalised, and leaves exactly what followed. |
| `Xdr.RoundTripExactly` | NFS/nfs_xdr.c:633-718 | It gives the value itself exactly if its bools are 0 or 1. |
| `Xdr.PrefixFree` | NFS/nfs_xdr.c:649-674 | Within a type no encoding is a proper prefix of another, and equal encodings are of equal values up to bools. |
| `Xdr.DecodedFits` | NFS/nfs_xdr.c:348-365 | Whatever bytes arrive, a decoded value is within the bounds of its type. |
| `Nfs.MessageRoundTrip` | NFS/nfs_xdr.c:199-844 | All of this for the argument and result of every procedure, with bools coded one by one; only READ, READDIR and PATHCONF results depend on them. |
| `Octets.HandleCall` | NFS/nfs_xdr.c:541-548 | GETATTR, FSINFO and PATHCONF are encoded exactly with a handle of at most 64 bytes: four bytes of length, most significant first, the handle, bytes 0 up to a multiple of four. |
| `Octets.MntCall` | NFS/nfs_xdr.c:199-207 | MNT is encoded exactly with a path of at most 1024 bytes without NUL, in the same form. |
| `Octets.CountedOctets` | NFS/nfs_xdr.c:219-226 | Counted bytes in the messages below have that form. |
| `Octets.CountedIsUnique` | NFS/nfs_xdr.c:219-226 | Which determines every byte. |
| `Octets.WordOctets` | NFS/nfs_xdr.c:314-345 | The words of the messages below are numbers with the most significant byte first. |
| `Octets.HyperOctets` | NFS/nfs_xdr.c:314-345 | Those of 64 bits are two such words, the high one first. |
| `Octets.SignedOctets` | NFS/nfs_xdr.c:314-345 | Negative numbers are in two's complement. |
| `Octets.LookupBounds` | NFS/nfs_xdr.c:721-740 | LOOKUP is encoded exactly with a handle of at most 64 bytes and a name without NUL. |
| `Octets.AccessBounds` | NFS/nfs_xdr.c:579-588 | ACCESS exactly with such a handle and a 32-bit word. |
| `Octets.ReadBounds` | NFS/nfs_xdr.c:787-798 | READ exactly with such a handle, a 64-bit offset and a 32-bit count. |
| `Octets.ReaddirBounds` | NFS/nfs_xdr.c:633-646 | READDIR also with a verifier of exactly eight bytes. |
| `Octets.ResultBounds` | NFS/nfs_xdr.c:229-257 | The results of LOOKUP and MNT are encoded with handles of at most 64 bytes only, that of READDIR with a verifier of eight. |
| `Pathconf.PathconfComesBackExactly` | NFS/nfs_xdr.c:438-518 | Over the four pairs of paths, a successful PATHCONF result followed by anything comes back, and leaves what followed, exactly if both sides code its bools inline or these are 0 or 1. |
| `Pathconf.FailureComesBack` | NFS/nfs_xdr.c:521-538 | A failed one always does. |
| `Pathconf.PlainIsTheType` | NFS/nfs_xdr.c:451-459 | Written without the inline buffer, a result has the encoding of its type. |
| `Pathconf.PlainReadIsTheType` | NFS/nfs_xdr.c:475-483 | Read without it, any bytes are decoded as by the type. |
| `Nfs.FattrLayout` | NFS/nfs_xdr.c:314-345 | xdr_fattr3 emits the 84 bytes of its fields in declaration order. |
| `Nfs.EntriesLayout` | NFS/nfs_xdr.c:649-662 | A list of entries of any length is emitted entry by entry, each announced by TRUE, closed by FALSE. |
| `Wire.LookupCall` | NFS/nfs_xdr.c:721-740 | Handle of the directory, then the name. |
| `Wire.AccessCall` | NFS/nfs_xdr.c:579-588 | Handle, then the access word. |
| `Wire.ReadCall` | NFS/nfs_xdr.c:787-798 | Handle, 64-bit offset, count. |
| `Wire.ReaddirCall` | NFS/nfs_xdr.c:633-646 | Handle, 64-bit cookie, the eight bytes of the verifier, count. |
| `Wire.FailureReply` | NFS/nfs_xdr.c:521-538 | Any status but 0 is followed by the optional attributes alone; for MNT and GETATTR by nothing. |
| `Wire.GetattrReply` | NFS/nfs_xdr.c:551-576 | Status 0, then the 84 bytes of the attributes. |
| `Wire.LookupReply` | NFS/nfs_xdr.c:743-784 | Status 0, handle, attributes of the object, attributes of the directory. |
| `Wire.AccessReply` | NFS/nfs_xdr.c:591-630 | Status 0, attributes, access word. |
| `Wire.ReadReply` | NFS/nfs_xdr.c:801-844 | Status 0, attributes, count, end-of-file flag, data. |
| `Wire.ReaddirReply` | NFS/nfs_xdr.c:665-718 | Status 0, attributes, verifier, the linked list of entries, end-of-file flag. |
| `Wire.PathconfReply` | NFS/nfs_xdr.c:438-538 | Status 0, attributes, two limits, four flags in order. |
| `Wire.FsinfoReply` | NFS/nfs_xdr.c:368-425 | Status 0, attributes, read sizes, write sizes, listing size, largest file, time step, properties. |
| `Wire.MntReply` | NFS/nfs_xdr.c:229-257 | Status 0, handle, number of flavors and the flavors. |
| `Nfs.InlineEncodingAgrees` | NFS/nfs_xdr.c:451-466 | The inline and the other encoding path of PATHCONF agree byte for byte exactly if the four bools are 0 or 1. |
| `Nfs.InlineDecodingAgrees` | NFS/nfs_xdr.c:475-490 | The two decoding paths agree exactly if the four words on the wire are 0 or 1. |
| `XdrStream.EncodeValue` | NFS/nfs_xdr.c:314-345 | Part after part onto the stream: appends exactly the encoding, or fails exactly out of bounds. |
| `XdrStream.DecodeValue` | NFS/nfs_xdr.c:314-345 | Part after part from the stream: returns the decoded value and stands behind it. |
| `XdrStream.EncodePointer` | NFS/nfs_xdr.c:649-662 | xdr_pointer and xdr_entry3, calling each other, emit the whole list. |
| `XdrStream.EncodePathconf` | NFS/nfs_xdr.c:438-468 | Whichever path is taken, bools that are 0 or 1 are encoded as the type prescribes. |
| `XdrStream.DecodeFlags` | NFS/nfs_xdr.c:475-491 | The four bools by either path, which differ only on words other than 0 and 1. |
| `XdrStream.Transfer` | NFS/nfs_xdr.c:633-718 | Encoding onto a stream and decoding from it gives the value back and leaves the rest. |

## Left out

- The real cluster size: 4096 is not a multiple of the 40-byte entry, so the slot loops of the program visit a partial slot at the end of each cluster (FAT/fat.c:352) and read, and in an insertion write, past the cluster buffer. What they then do is not defined, so every method that runs such a loop takes "entry size divides cluster size" (`Entries.Slotted`) as a premise. These are:
- Filesystem.FatMknod: requires that the entry size divides the cluster size, because the slot loops leave the cluster buffer otherwise.
- Directory.FindDirEntryByName: requires that the entry size divides the cluster size, because the slot loops leave the cluster buffer otherwise.
- Directory.UpdateDirEntry: requires that the entry size divides the cluster size, because the slot loops leave the cluster buffer otherwise.
- Directory.AddDirEntryToCluster: requires that the entry size divides the cluster size, because the slot loops leave the cluster buffer otherwise.
- Directory.IsDirEmpty: requires that the entry size divides the cluster size, because the slot loops leave the cluster buffer otherwise.
- Listing.ReadDirEntries: requires that the entry size divides the cluster size, because the slot loops leave the cluster buffer otherwise.
- Filesystem.FindDirEntryByPath: requires that the entry size divides the cluster size, because the slot loops leave the cluster buffer otherwise.
- Filesystem.FindParent: requires that the entry size divides the cluster size, because the slot loops leave the cluster buffer otherwise.
- Filesystem.AddDirEntry: requires that the entry size divides the cluster size, because the slot loops leave the cluster buffer otherwise.
- Filesystem.FatMkdir: requires that the entry size divides the cluster size, because the slot loops leave the cluster buffer otherwise.
- Filesystem.FatWrite: requires that the entry size divides the cluster size, because the slot loops leave the cluster buffer otherwise.
- Filesystem.FatTruncate: requires that the entry size divides the cluster size, because the slot loops leave the cluster buffer otherwise.
- Filesystem.FatUnlink: requires that the entry size divides the cluster size, because the slot loops leave the cluster buffer otherwise.
- Filesystem.FatRmdir: requires that the entry size divides the cluster size, because the slot loops leave the cluster buffer otherwise.
- Mounting.FatRead: requires that the entry size divides the cluster size, because the slot loops leave the cluster buffer otherwise.
- Writing.UpdateFile: requires that the entry size divides the cluster size, because the slot loops leave the cluster buffer otherwise.
- Mounting.FatInit: requires that the entry size divides the cluster size, because the slot loops leave the cluster buffer otherwise.
- What becomes of the program's memory after an allocation short by exactly one cluster: the disk it leaves is modelled (`Theorems.ShortByOneExactly`), and the program has ended.
- Recovery after an interruption: the lemmas say which interruptions do harm; the program has no repair.
- Zero-length writes and offsets beyond 2^32, where line 563 of FAT/fat.c wraps around.
- One value of the clock per operation is passed in; the program asks for the time again for every entry it writes.
- The comment at FAT/fat.c:81 promises "/a/b/" as the parent of "/a/b/c"; the code yields "/a/b", and so does the model.
- A creation under a name that exists already is not excluded: the kernel does not ask for it, and the model then holds two entries with the name, as the program would.
- Symbolic links: the program defines their type but never creates one.
- getattr, access, open, create, readdir's path lookup, release, utimens and fat_destroy: thin wrappers around the modelled routines.
- Disk errors, buffering of the disk file, memory allocation and `main`.
- XDR streams with limited room, and freeing of decoded values: a stream is an unbounded byte sequence with a cursor. The primitives follow RFC 4506, not a particular library.
- Values of enums are not checked against the declared ones, as in the code. A decoded string ends at its first NUL.
- NFS/nfs_server.c, NFS/read.c, NFS/nfs_svc.c, NFS/tools.c and FTP/ftp_server.c: handlers over operating-system calls.
