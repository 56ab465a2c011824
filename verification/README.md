# Verification of the xv6fs server, its disk channel, and the benchmark arithmetic

This project models, in Dafny, the file-system server of `xv6fs/`, the polled channel by
which it reaches the ramdisk of `ramdisk/`, and two pieces of the SQLite benchmark in
`sqlite3/`: the pseudo-random generator and the histogram.  `dafny verify dfyconfig.toml`
checks all of it.

## What is proved

**One invariant for the whole server.**  `Invariant.Inv` says what the bytes of the disk mean:

* blocks reachable from allocated inodes, through direct, indirect and double-indirect
  pointers, are owned by exactly one place each.  `owner` is a function from blocks to
  places and the exact inverse of the pointers, so nothing is shared within a file or
  across files, and every owned block has its bitmap bit set;
* bytes past the end of a file are zero, so that growing a file, or a gap, reads as zeros;
* the in-memory inode table has one entry for each referenced inode, and a loaded entry is
  the current inode; the disk's copy may lack blocks that `bmap` has added since, but only
  blocks that read as zeros;
* `solid` files (directories among them) have no holes, and then reading allocates nothing.

`Links.NsOk` adds the name space (the root is the one directory, and a file's link count is
the number of its names), and `OpenFiles.SysOk` the accounting of references: descriptors to
open files, open files to inode references, inode references to the inode table.  Formatting
establishes all of it (`Image.Boot`).  A run is a sequence of calls that each do to files,
names, descriptors and references what their contracts say; the invariant holds all along it,
however long it is, up to the one truncation described below and no further
(`Dispatch.RunKeepsOrder`).  `Dispatch.Serve` is the call, and `Dispatch.Run` the loop.

**Blocks are accounted for as well.**  `Tidy` says that every block in use belongs to a file
and that the disk has every inode as memory has it.  The formatted disk is tidy, each call but
a read from a hole keeps it so, and hence a run without such reads loses no block
(`Dispatch.RunKeepsTidy`).  A walk along a path leaves no trace but in the inode table, and
unlink gives back exactly the blocks of a file that goes away.

**What calls do is stated on files and names, not on blocks.**  `st.files` gives each inode
its bytes; `WriteI` splices bytes into one file and changes no other, `ReadI` changes none,
`DirMap` turns a directory's bytes into a finite map from names to inodes, and path
resolution, `unlink`, `create` and `link` are stated on that map.

**What a client sees is stated in numbers too**, without the tables and the functions the calls
are specified by.  `Calls` says what is behind a descriptor (a file, its bytes, an offset) and
what each call makes of it: which opens succeed, that a descriptor reads unless its mode had bit
0 and writes if it had bit 0 or 1, what bytes a read gives, that what is written is read back,
how seeks add up, that close undoes dup, and when a close takes the file away.  `NameSpace` says
what every path names after create, link and unlink, and when they succeed.  `Runs` does the same
for runs: only four kinds of calls can change a file (`Runs.OnlyTouchingChanges`), only two what
paths name (`Runs.RunKeepsNames`), and what one call writes another, any number of calls later
and through whatever descriptor of the file, reads back (`Runs.RunReadsBack`).  Below that,
`BlockTree.PlaceOfBlock`, `Invariant.PlaceOfByte`, `BlockStore.PlaceOfMark`,
`BlockStore.PlaceOfInode` and `Directory.EntryInBytes` say where on the disk each thing is, and
`Space.CountOfWays` how many pointers and blocks a range of a file takes.

**How much space and how many table entries a call needs is known before the call.**  A write
is complete if and only if the blocks missing on the way to its range are no more than the
free blocks of the disk, and then exactly those come into use (`Space.WriteFitsIff`, and with
the numbers worked out for a file that has no blocks yet, `Space.FirstWriteFitsIff`); the
chunks of `filewrite` need the same (`Server.WroteFitsIff`), so they succeed just when one
`writei` would, with the same outcome (`Server.ChunkedIsWhole`).  No other inode gains a block.
A new name is entered if and only if the root has an empty entry, or may grow and the blocks
missing on the way to its end are free (`HasPlace`); so `create` and `link` succeed if and
only if that holds, besides what they refuse outright, and what a failure takes is stated too
(`Extended`).
The precondition of a call that takes a path is that each `iget` on its way finds an entry
(`NameRoom`, `OpenRoom`, `UnlinkRoom`, `LinkRoom`).

**Where the code falls short, the exact condition is proved.**

* `itrunc` clears `addrs[NDIRECT]` a second time where it should clear `addrs[NDIRECT + 1]`
  (xv6fs/src/fs.c:647).  It keeps the invariant if and only if the inode has no
  double-indirect block (`Invariant.TruncIsSoundIff`).  Freeing an inode is not affected,
  because its type becomes 0 and `ialloc` clears the record.  `open` with O_TRUNC keeps the
  server in order if and only if it did not truncate such a file (`Server.Server.Open`).
  `Examples.TruncateBig` is the sequence of calls: create, write one byte at offset 273408,
  open with O_TRUNC.
* `readi` may allocate a block under a hole without `iupdate`.  Dropping the last reference
  then loses the block from the bitmap, exactly when memory had run ahead of the disk
  (`Invariant.DropLeaksIff`).  No byte of a file is lost.  `Examples.ReadHole` is the sequence
  of calls: write behind a hole, read from it, close.
* `link` at a link count of 0x7fff overflows the 16-bit count; below it the name space stays
  in order, at it it does not (`Links.LinkKeepsLinks`, and for the whole server
  `Server.Server.Link`).  `Overflow.LinkTooOften` makes the calls.
* recycling a buffer drops its changes if and only if it was not written back
  (`Cache.RecycleIsInvisibleIff`).  `fs.c` never writes a buffer back (every `log_write` is
  commented out: xv6fs/src/fs.c:229, 248, 375, 401, 724).  For such clients the cache is a
  flat array of blocks as long as they touch no more blocks than there are buffers
  (`Unwritten.Run`), and with one block more a change can be lost (`Unwritten.LoseChange`).
  So the file system is verified over a store that keeps writes, and the cache also for
  clients that follow xv6fs/src/bio.c:8-14: reads, changes, write-backs and releases of any
  number of buffers held at a time, in any order (`Cache.Cache.Run`).
* `create` on a name that exists keeps a reference to the inode found
  (xv6fs/src/sysfile.c:263-269).  Such references are counted (`loose`), and in the end they
  make `iget` panic ("iget: no inodes"): it panics at an inode if and only if that inode has
  no entry and all fifty have one (`Invariant.GetPanicsIff`), and a walk that lacks room does
  reach such an `iget` (`Namei.WalkPanics`).  The entries are those of descriptors, the
  current directory and the inodes pinned in this way (`OpenFiles.TableInodes`), so while no
  more than thirty-five are pinned there is room (`OpenFiles.TableHasRoom`).
  `Examples.FillTable` leads from a formatted disk to a server in order whose next lookup
  panics.
* `percentile` divides by zero if and only if it is asked for nothing, that is,
  `num * (p / 100.0) <= 0.0`, and the first bucket is empty (`Histogram.DividesByZeroIff`);
  `Histogram.NothingAskedFor` is an instance.
* `filewrite` does not count a short last chunk in its result although the offset has moved
  (xv6fs/src/file.c:161-174), and `pread` and `pwrite` move the offset of the file
  (xv6fs/src/sysfile.c:90, 110); the contracts say so.

**Panics.**  Each one of the modelled code is an `assert` or a precondition that is proved.
Unreachable are "freeing free block", "bmap: out of range", "ilock: no type", "dirlookup read",
"unlink: nlink < 1", "unlink: writei", "filedup", "fileclose" and "Failed to read block" or
"write block".  Two have an exact condition: "iget: no inodes", as above, and "bget: no
buffers", which is met just when clients hold thirty other blocks (`Cache.BGetPanicsIff`), and
so never by clients with fewer references (`Cache.FewHeldNeverPanic`).  Every operation of the file system leaves the set of pinned buffers as it found it and needs
three free ones at most.

**The cache** is the circular list itself, with `next` and `prev` as arrays of positions, and
what clients see of it is a flat array of blocks (`view`).  **The channel** is a step relation
in which every load and store of the shared words is a step, and an invariant over every
interleaving.  Each request to read a block is answered with what the last request before it to
write that block asked to write (`Channel.RequestsAreAnswered`), and from every reachable state
there is a way on that completes the pending request (`Channel.DiskRwReturns`).  **The generator** is proved against multiplication modulo 2^31 - 1, and **the
histogram**, over the reals, against the sequence of samples added.

## Files

| file | contents |
|---|---|
| Layout | constants, and the byte codecs of blocks, bitmaps, inodes |
| BlockStore, BlockTree | bitmap and inode blocks; block trees, ownership, file contents |
| Invariant | the invariant, and one lemma for each kind of step |
| Space | how many blocks a read or a write takes, and when there are enough |
| FileSystem | the inode layer as a class |
| Directory, DirectoryOps | directory bytes as a finite map; dirlookup, dirlink, erasing |
| Path, References, Namei | path elements; counting references; namex |
| NameSpace | what paths name before and after create, link and unlink |
| Links, Sysfile | names and link counts; unlink, create, link |
| OpenFiles, Server, Dispatch | tables of open files; descriptor calls; the dispatch loop |
| Calls, Runs | what calls, and runs of calls, come to for a client |
| Cache, Unwritten | the buffer cache; the cache under clients that never write back |
| Channel, Image | the channel; formatting and the start |
| Examples, Overflow | sequences of calls, from a disk to be formatted, after which a promise fails |
| Random, Histogram | the benchmark's arithmetic |

The lemmas use `hide` to keep definitions they do not need away from the solver.

## Model

| member | source | states |
|---|---|---|
| Layout.ConstantsAgree | xv6fs/src/defs.h:105-127 | The literal constants are the ones the header derives from BSIZE |
| Layout.WordOfSetWord | xv6fs/src/fs.c:556-562 | Storing a block number in an indirect block gives it back and leaves the 255 others |
| Layout.BitOfSetBit | xv6fs/src/fs.c:245-247 | Setting or clearing one allocation bit changes no other of the 8192 of its block |
| Layout.TestWithBit | xv6fs/src/fs.c:245-247 | The mask operations on a byte test and change one bit |
| Layout.RecordOfSetRecord | xv6fs/src/fs.c:64-74 | Storing a 64-byte record leaves the fifteen others of its block |
| Layout.InodeRoundTrip | xv6fs/src/fs.c:389-403 | What iupdate stores of an inode, ilock loads |
| BlockStore.PlaceOfMark | xv6fs/src/fs.c:244-247 | Block b is marked just when bit b % 8 of byte b % 8192 / 8 of the bitmap block at bmapstart + b / 8192 is set |
| BlockStore.PlaceOfInode | xv6fs/src/fs.c:389-403 | Inode i is in 64 bytes of block inodestart + i / 16, its fields little-endian at their offsets |
| BlockStore.ViewsWithBit | xv6fs/src/fs.c:237-273 | A bit change changes one block's mark, no inode and no data block |
| BlockStore.ViewsWithInode | xv6fs/src/fs.c:389-403 | Storing an inode changes that inode and nothing else on the disk |
| BlockStore.ViewsWithData | xv6fs/src/fs.c:717-725 | Writing a data block changes no mark and no inode |
| BlockStore.Store.ZeroBlock | xv6fs/src/fs.c:224-231 | The block is zero afterwards, and the pins are as before |
| BlockStore.Store.FindClear | xv6fs/src/fs.c:244-255 | The first clear bit of one bitmap block, all before it being set |
| BlockStore.Store.BAlloc | xv6fs/src/fs.c:237-258 | First fit: the lowest unmarked block, zeroed and marked; 0 exactly when all are marked |
| BlockStore.Store.BFree | xv6fs/src/fs.c:261-273 | Clears exactly that mark; a marked block is never "free" already |
| BlockStore.Store.ClaimInode | xv6fs/src/fs.c:364-383 | The lowest free inode is zeroed and typed; 0 exactly when none is free |
| BlockStore.Store.WriteInode | xv6fs/src/fs.c:389-403 | The inode table changes at one number |
| BlockStore.Store.ReadInode | xv6fs/src/fs.c:459-471 | The inode of that number, pins as before |
| BlockTree.PlaceOfBlock | xv6fs/src/fs.c:532-603 | The number of block bn stands in addrs[bn] for bn < 11, in word bn - 11 of the block of addrs[11] for bn < 267, and from there in word (bn - 267) % 256 of the block in word (bn - 267) / 256 of that of addrs[12] |
| BlockTree.SlotOfInjective | xv6fs/src/fs.c:532-603 | bmap's case split sends different file blocks to different pointer places |
| BlockTree.NoSharing | xv6fs/src/fs.c:532-603 | No block is reachable twice, within an inode or across two |
| BlockTree.WriteKeepsPtr | xv6fs/src/fs.c:717-725 | Writing file data, or an unowned block, moves no pointer of any file |
| BlockTree.DataWrite | xv6fs/src/fs.c:717-725 | Writing one block of one file changes that block of that file and no other |
| BlockTree.GraftPtr | xv6fs/src/fs.c:537-596 | Storing a new block number changes that pointer and no other anywhere |
| BlockTree.GraftKeepsOwned | xv6fs/src/fs.c:537-596 | ... and ownership stays exact |
| BlockTree.GraftKeepsFiles | xv6fs/src/fs.c:537-596 | ... and no byte of any file changes |
| BlockTree.ShadowSameFile | xv6fs/src/fs.c:459-469 | Reloading an inode from the disk after bmap ran ahead shows the same bytes |
| Invariant.AllocGraft | xv6fs/src/fs.c:532-603 | balloc and the store of the number keep the invariant and every file |
| Invariant.MappedTransitive | xv6fs/src/fs.c:547-600 | The levels of the tree compose |
| Invariant.MappedFails | xv6fs/src/fs.c:549-594 | Running out of space at one level leaves everything in order for the levels below |
| Invariant.DataWriteKeepsInv | xv6fs/src/fs.c:717-725 | Copying into a block keeps the invariant of all other files |
| Invariant.BlocksOfAreReachable | xv6fs/src/fs.c:607-652 | The blocks attributed to an inode are those its pointers reach |
| Invariant.PlaceOfByte | xv6fs/src/fs.c:677-690 | Byte p of a file is byte p % 1024 of the block whose number stands in the place of block p / 1024, and 0 without one |
| Invariant.FreedNext | xv6fs/src/fs.c:612-648 | Each slot's block is still marked when itrunc comes to it |
| Invariant.FreedAll | xv6fs/src/fs.c:612-648 | At the end of itrunc exactly the blocks of the inode have been freed |
| Invariant.TruncGives | xv6fs/src/fs.c:607-652 | The blocks the pointers of the inode lead to, and only they, lose their marks; size and the first twelve addrs are 0, the thirteenth stays; no other inode changes |
| Invariant.TruncIsSoundIff | xv6fs/src/fs.c:607-652 | itrunc keeps the invariant if and only if addrs[NDIRECT + 1] is 0 |
| Invariant.FreeKeepsInv | xv6fs/src/fs.c:490-514 | Freeing an inode keeps the invariant, whatever its addrs |
| Invariant.DropKeepsInv | xv6fs/src/fs.c:490-514 | Dropping the last reference to a linked inode keeps the invariant and every file |
| Invariant.DropLeaksIff | xv6fs/src/fs.c:490-514 | ... and leaks a block if and only if memory had run ahead of the disk |
| Invariant.ClaimKeepsInv | xv6fs/src/fs.c:364-383 | Claiming a free inode keeps the invariant |
| Invariant.WriteThenRead | xv6fs/src/fs.c:668-737 | A complete write is read back as it was |
| Invariant.ReadGives | xv6fs/src/fs.c:668-692 | Nothing when the offset is past the end or the range leaves 32 bits; else n bytes from it or all there are, and fewer only where a block is missing |
| Invariant.WriteThenReadToEnd | xv6fs/src/fs.c:668-737 | After a complete write that ends the file, a read that asks for as much or more gives what was written, and the next one nothing |
| Invariant.WriteGives | xv6fs/src/fs.c:701-737 | Byte by byte: what was written, what was there, zeros in a gap; refused if and only if the end would be beyond 67382272; no other file changes |
| Invariant.RoomForOne | xv6fs/src/fs.c:413-427 | An empty entry of the inode table exists if and only if fewer than NINODE inodes have one |
| Invariant.GetPanicsIff | xv6fs/src/fs.c:413-427 | "iget: no inodes" if and only if the inode has no entry and NINODE others have one |
| Invariant.PutIsOk | xv6fs/src/fs.c:490-514 | One reference less; the file goes away just when it was the last and it has no links, and then exactly its blocks are free; otherwise nothing changes but the table, unless memory had run ahead of the disk |
| Invariant.WriteKeepsTidy | xv6fs/src/fs.c:701-737 | writei loses no block, and leaves none to be lost |
| Space.MapTakesAtMostThree | xv6fs/src/fs.c:532-603 | bmap brings at most three blocks into use, and succeeds when three are free |
| Space.OthersKeepPointers | xv6fs/src/fs.c:532-603 | No pointer of another inode changes when one grows |
| Space.TakenIsWanted | xv6fs/src/fs.c:532-603 | A block that came into use sits in a slot on the way that was empty before |
| Space.OnTheWayIff | xv6fs/src/fs.c:532-603 | Which pointers bmap goes through for a range of blocks |
| Space.CountOfWays | xv6fs/src/fs.c:532-603 | They are one for each block, one for the indirect block, one for the double-indirect block and one for each group of 256 below it, as far as the range comes to them |
| Space.WriteFitsIff | xv6fs/src/fs.c:701-737 | writei is complete if and only if the blocks missing on the way to its range are no more than the free ones, and then takes just those |
| Space.FirstWriteFitsIff | xv6fs/src/fs.c:701-737 | Writing to a file without blocks is complete if and only if that number of blocks is free; two blocks from block 267 on take four |
| Space.OverwriteTakesNothing | xv6fs/src/fs.c:713-726 | Overwriting within a file without holes takes no block |
| Space.ReadFitsIff | xv6fs/src/fs.c:668-692 | The same for readi, which fills the holes it meets |
| Space.ReadOfNoHole | xv6fs/src/fs.c:668-692 | A read under which no block is missing changes nothing but the inode table |
| FileSystem.FileSystem.RootBlock | xv6fs/src/fs.c:537-542 | The block number in addrs[k], allocated if missing; 0 only on a full disk |
| FileSystem.FileSystem.EntryBlock | xv6fs/src/fs.c:556-563 | The same for a word of a pointer block |
| FileSystem.FileSystem.BMapIndirect | xv6fs/src/fs.c:547-566 | The single-indirect branch, with its two out-of-space exits |
| FileSystem.FileSystem.BMapDouble | xv6fs/src/fs.c:569-600 | The double-indirect branch, with its three |
| FileSystem.FileSystem.BMap | xv6fs/src/fs.c:532-603 | The block of the file; an existing one without any change; in every exit no byte of any file changes, no other inode gains a block, and new blocks are on the way to this one only; and where its number stands, in numbers |
| FileSystem.FileSystem.CopyOut | xv6fs/src/fs.c:677-690 | One round of readi copies a piece of the file, or meets a hole on a full disk |
| FileSystem.FileSystem.ReadI | xv6fs/src/fs.c:668-692 | A prefix of the bytes asked for, all of it unless a hole cannot be filled; no file changes, and blocks appear under holes in the range read only |
| FileSystem.FileSystem.CopyIn | xv6fs/src/fs.c:713-726 | One round of writei extends what has been written, or the disk is full |
| FileSystem.FileSystem.WriteI | xv6fs/src/fs.c:701-737 | Splices exactly the bytes reported into one file, gap zeroed; a refused write changes nothing; short only on a full disk at a block boundary, and never inside a file without holes; blocks appear on the way to the range only |
| FileSystem.FileSystem.IUpdate | xv6fs/src/fs.c:389-403 | The disk inode becomes the current one |
| FileSystem.FileSystem.FreeSlot | xv6fs/src/fs.c:623-624 | The block of one slot, if any, loses its mark |
| FileSystem.FileSystem.FreeDirect | xv6fs/src/fs.c:612-617 | The loop over the direct blocks |
| FileSystem.FileSystem.FreeIndirect | xv6fs/src/fs.c:619-628 | The indirect block and its entries |
| FileSystem.FileSystem.FreeDouble | xv6fs/src/fs.c:631-646 | The double-indirect block and both levels below |
| FileSystem.FileSystem.ITrunc | xv6fs/src/fs.c:607-652 | Exactly the blocks of the inode lose their marks; size 0; addrs[NDIRECT + 1] stays |
| FileSystem.FileSystem.FindEntry | xv6fs/src/fs.c:413-423 | The entry of the inode if there is one, and the first empty entry before it |
| FileSystem.FileSystem.IGet | xv6fs/src/fs.c:408-437 | One reference more to that inode, through the one entry it has; nothing else moves; the precondition is exactly that iget does not panic |
| FileSystem.FileSystem.IDup | xv6fs/src/fs.c:441-446 | One reference more |
| FileSystem.FileSystem.ILock | xv6fs/src/fs.c:450-473 | The inode is loaded; its type is not 0; nothing else changes |
| FileSystem.FileSystem.IPut | xv6fs/src/fs.c:490-514 | One reference less; the last one to an unlinked inode frees precisely its blocks and its inode |
| FileSystem.FileSystem.IAlloc | xv6fs/src/fs.c:364-383 | The lowest free inode becomes an empty file with one reference; none, also with a full inode table, when all are in use |
| FileSystem.FileSystem.SetFields | xv6fs/src/sysfile.c:278-282 | Assigning fields and iupdate change those fields of one file |
| Directory.CutIff | xv6fs/src/fs.c:741-741 | The string in a buffer is what comes before the first NUL, or all of it |
| Directory.EntryInBytes | xv6fs/src/fs.c:752-757 | Entry k is 64 bytes: two of inode number, and a name of at most 62 that a NUL ends if it is shorter |
| Directory.NameCmpIsEqualNames | xv6fs/src/fs.c:741-741 | namecmp is 0 exactly when the names cut to DIRSIZ bytes are equal |
| Directory.CutOfPad | xv6fs/src/fs.c:790-790 | A name survives strncpy into an entry and reading it back |
| Directory.DirentRoundTrip | xv6fs/src/fs.c:790-792 | An entry is read back as it was stored |
| Directory.BoundByEntry | xv6fs/src/fs.c:745-767 | A name is bound only by a live entry that carries it |
| Directory.EntryBinds | xv6fs/src/fs.c:745-767 | A live entry binds its name to its inode |
| Directory.BindingAdded | xv6fs/src/fs.c:771-796 | A new entry extends the map by exactly that binding and keeps names unique |
| Directory.BindingRemoved | xv6fs/src/sysfile.c:232-234 | A zeroed entry removes exactly its binding |
| DirectoryOps.ReadEntry | xv6fs/src/fs.c:752-754 | The entry at that offset; the read is never short |
| DirectoryOps.DirLookup | xv6fs/src/fs.c:745-767 | Finds the name exactly when it is bound, its offset and its inode, referenced once more; an absent name needs no entry |
| DirectoryOps.LookupIsTheMap | xv6fs/src/fs.c:745-767 | What dirlookup finds is what the map says |
| DirectoryOps.FindEmpty | xv6fs/src/fs.c:782-788 | The first empty entry, or the end |
| DirectoryOps.DirLink | xv6fs/src/fs.c:771-796 | Exactly one binding more, in the first empty entry, if and only if the name is new and the directory has, or can take, a place for it; -1 leaves every file as it was; the blocks taken are exactly those missing |
| DirectoryOps.ExtendedAlike | xv6fs/src/fs.c:782-795 | What entering a name takes depends on the directory and the bitmap only |
| DirectoryOps.Erase | xv6fs/src/sysfile.c:232-234 | Exactly one binding less; the write is never short |
| Path.ElementsAreThePieces | xv6fs/src/fs.c:800-834 | The elements are the non-empty pieces between slashes, cut to DIRSIZ |
| Path.ElementsOfJoined | xv6fs/src/fs.c:800-834 | A path made of elements, each behind a slash, has just those elements, of which 62 bytes count |
| Path.SkipElem | xv6fs/src/fs.c:812-834 | The next element and the rest, or nothing when there is none |
| References.HoldAfterGet | xv6fs/src/fs.c:408-437 | Counting across calls: one reference more |
| References.HoldAfterPut | xv6fs/src/fs.c:490-514 | One less, and the inode goes only if nobody else refers to it and it has no links |
| References.HoldingKeys | xv6fs/src/fs.c:408-437 | The inodes with an entry are those that had one and those held |
| Namei.NameiIsLookupInParent | xv6fs/src/fs.c:840-880 | namei of a path is looking its last element up in nameiparent of it; both fail together |
| Namei.ResolveOneMore | xv6fs/src/fs.c:848-870 | One element more is one lookup more, in the directory the rest of the path leads to |
| Namei.LookupByEntry | xv6fs/src/fs.c:745-767 | A lookup finds an inode number if and only if the directory has an entry with that name and number |
| Namei.Enter | xv6fs/src/fs.c:859-864 | One descent: the child referenced, the directory released |
| Namei.Walk | xv6fs/src/fs.c:848-870 | The loop ends at the resolved inode, or nowhere with no reference left; it needs entries only for the inodes it goes through |
| Namei.NameX | xv6fs/src/fs.c:840-871 | One reference to the resolved inode, none elsewhere and none on failure |
| Namei.WalkedAfterPut | xv6fs/src/fs.c:848-870 | A walker that gives an inode back leaves no trace but in the inode table |
| Namei.WalkPanics | xv6fs/src/fs.c:848-870 | A walk for which the inode table has no room comes to a directory at which the next iget panics |
| Links.BoundHasLinks | xv6fs/src/sysfile.c:225-226 | A named file has a link, so "unlink: nlink < 1" is unreachable |
| Links.UnlinkKeepsLinks | xv6fs/src/sysfile.c:232-243 | A name and a link less keep counts equal to names |
| Links.CreateKeepsLinks | xv6fs/src/sysfile.c:272-301 | So do a new file and its name |
| Links.LinkKeepsLinks | xv6fs/src/sysfile.c:159-171 | So does a further name, if and only if the count fits 16 bits |
| Sysfile.Unlink | xv6fs/src/sysfile.c:200-253 | Removes the name and one link, and the file with exactly its blocks if it was the last and it is not open; else -1 and nothing changes, for exactly the reasons given |
| Sysfile.Create | xv6fs/src/sysfile.c:255-310 | A new file, linked once, under a new name, if and only if there is an inode and the root has a place; else nothing, but for blocks a full disk gave the root, and one reference kept if the name existed |
| Sysfile.Link | xv6fs/src/sysfile.c:139-184 | A further name for a file that is no directory, if and only if its parent exists, it is new and the root has a place; else -1, the count put back |
| Sysfile.ExistingLeaks | xv6fs/src/sysfile.c:263-269 | create on an existing name leaves exactly one reference behind |
| Sysfile.EmptyEntrySuffices | xv6fs/src/fs.c:840-880 | One empty entry of the inode table is room enough for open and unlink, however long the path |
| Sysfile.TwoEntriesSuffice | xv6fs/src/sysfile.c:139-184 | Two are for link |
| NameSpace.NamedInRoot | xv6fs/src/fs.c:840-880 | A path names the root, or what the root binds its last element to if it has a parent |
| NameSpace.NamesKept | xv6fs/src/fs.c:840-880 | What paths name depends on the entries of the root only |
| NameSpace.UnlinkGives | xv6fs/src/sysfile.c:200-253 | Succeeds if and only if the path names a file and does not end in a dot; then the paths with that last element name nothing and all others what they named; the file has a link less, or is gone if that was its last and it is not open; no other file changes but the root |
| NameSpace.LinkGives | xv6fs/src/sysfile.c:139-184 | Succeeds if and only if the old path names a file, the new one names nothing but has a parent, and the root has a place; then both name that file, which has a link more; all other paths name what they named |
| NameSpace.CreateGives | xv6fs/src/sysfile.c:255-310 | Succeeds if and only if the path names nothing but has a parent, an inode is free and the root has a place; then it names the new file, and all other paths what they named |
| OpenFiles.TableInodes | xv6fs/src/fs.c:408-437 | The inodes in the table are exactly those of descriptors, the current directory, and those pinned by failed creates |
| OpenFiles.TableHasRoom | xv6fs/src/fs.c:426-427 | The inode table has an empty entry while at most thirty-five inodes are pinned by failed creates |
| OpenFiles.FileTableHasRoom | xv6fs/src/file.c:17-30 | filealloc finds an entry: sixteen descriptors cannot use a hundred |
| OpenFiles.OrphansAreOpen | xv6fs/src/fs.c:490-514 | A file without names is there only as long as a descriptor or a loose reference leads to it |
| OpenFiles.OpenedKeeps | xv6fs/src/sysfile.c:351-368 | A new descriptor, open file and inode reference keep the accounts |
| OpenFiles.DupedKeeps | xv6fs/src/sysfile.c:41-51 | So does a further descriptor |
| OpenFiles.DroppedKeeps | xv6fs/src/file.c:43-54 | So does closing one of several |
| OpenFiles.LoosenedKeeps | xv6fs/src/file.c:55-65 | Closing the last sets the inode reference loose |
| Server.NsAfterPut | xv6fs/src/fs.c:490-514 | iput keeps the name space, also when it takes a file away |
| Server.LinksAfterBytes | xv6fs/src/file.c:133-180 | Writing to a file that is no directory keeps names and link counts |
| Server.Server.constructor | xv6fs/src/main.c:131-138 | The accounts hold at the start, with "/" as current directory |
| Server.Server.FileAlloc | xv6fs/src/file.c:17-30 | The first entry with no reference, taken |
| Server.Server.FileDup | xv6fs/src/file.c:33-40 | One reference more |
| Server.Server.FileClose | xv6fs/src/file.c:43-65 | One less; the last puts the inode, unless the entry has no file yet |
| Server.Server.ArgFd | xv6fs/src/sysfile.c:11-23 | The open file of a descriptor, or none |
| Server.Server.FdAlloc | xv6fs/src/sysfile.c:27-39 | The lowest free descriptor from 3 on, or -1 when there is none |
| Server.Server.Look | xv6fs/src/sysfile.c:326-343 | create, or namei and ilock, whenever each iget on the way finds an entry |
| Server.Server.Attach | xv6fs/src/sysfile.c:351-368 | An open file and a descriptor for the inode, or the reference goes back |
| Server.Server.Open | xv6fs/src/sysfile.c:312-378 | The descriptor, the open file and the state after; the invariant holds if and only if no file that had a double-indirect block was truncated |
| Server.OpenKeepsSysIff | xv6fs/src/sysfile.c:312-378 | Whatever open does, by its contract, keeps the server in order if and only if it does not truncate a file with a double-indirect block |
| Server.TruncIsSound | xv6fs/src/sysfile.c:370-372 | Truncation on open keeps the server in order if and only if there is no double-indirect block |
| Server.Server.FileRead | xv6fs/src/file.c:107-129 | What readi gives at the offset, which moves by as much |
| Server.Server.WriteChunk | xv6fs/src/file.c:155-173 | One chunk: it is complete and more follows, or the call ends there |
| Server.Server.FileWrite | xv6fs/src/file.c:133-180 | The bytes spliced, the offset, and a result that counts complete chunks only; blocks appear on the way to the range only |
| Server.WroteFitsIff | xv6fs/src/file.c:145-174 | filewrite is complete if and only if the blocks missing on the way to the range are no more than the free ones |
| Server.ChunkedIsWhole | xv6fs/src/file.c:145-174 | Writing in chunks is complete if and only if one writei of the whole is, and then leaves the same files |
| Server.SpliceTwice | xv6fs/src/file.c:154-174 | Two writes one after the other are one write of both |
| Server.Server.FileSeek | xv6fs/src/file.c:86-103 | The new offset in 32-bit arithmetic, and the result read as an int |
| Server.Server.Read | xv6fs/src/sysfile.c:53-63 | fileread behind a descriptor, -1 without one |
| Server.Server.Write | xv6fs/src/sysfile.c:65-76 | filewrite behind a descriptor, -1 without one |
| Server.Server.PRead | xv6fs/src/sysfile.c:78-96 | A seek, which moves the offset even when refused, and a read |
| Server.Server.PWrite | xv6fs/src/sysfile.c:98-115 | A seek and a write |
| Server.Server.Remove | xv6fs/src/sysfile.c:200-253 | unlink, with all it does to names, links and blocks, keeps the open files |
| Server.Server.Link | xv6fs/src/sysfile.c:139-184 | link keeps the server in order if and only if it failed or the link count was below 0x7fff |
| Server.Server.Dup | xv6fs/src/sysfile.c:41-51 | A further descriptor, the lowest free one, or -1 and no change |
| Server.Server.Close | xv6fs/src/sysfile.c:117-126 | The descriptor is free; the last one to an open file puts its inode, and no earlier one |
| Server.CloseKeepsSys | xv6fs/src/sysfile.c:117-126 | Whatever close does, by its contract, keeps the server in order |
| Calls.OpensIff | xv6fs/src/sysfile.c:312-378 | When open gives a descriptor: a descriptor from 3 to 15 is free, and the path names something that is no device without a driver number, or with O_CREAT it names nothing and can be made |
| Calls.OpenGives | xv6fs/src/sysfile.c:312-378 | Behind the new descriptor is the file with the bytes it had, or none if it is new or truncated, at offset 0; behind all others is what was there |
| Calls.OpenThenRead | xv6fs/src/file.c:107-129 | For every mode: a read through the new descriptor is refused if and only if the mode has bit 0, and else gives the first bytes of the file, none after O_TRUNC |
| Calls.OpenThenWrite | xv6fs/src/file.c:133-180 | For every mode: a write is refused if and only if the mode has neither bit 0 nor bit 1, and else the file begins with what was written |
| Calls.WroteGives | xv6fs/src/file.c:145-179 | The bytes of the file after filewrite, one by one, the offset, and a result that counts complete chunks of 3072 unless all is written |
| Calls.ReadThrough | xv6fs/src/file.c:118-127 | The bytes at the offset, as many as asked for or as there are, and the offset behind them |
| Calls.WriteSeekRead | xv6fs/src/file.c:86-180 | A complete write, back to where it began, and a read give what was written; if it ended the file, also when more is asked for, and the next read gives nothing |
| Calls.SeekGives | xv6fs/src/file.c:86-103 | The offset is the start, the current offset or the size, plus `off`, in 32 bits; nothing else changes |
| Calls.SeeksAddUp | xv6fs/src/file.c:86-103 | Two seeks from the current offset are one by the sum, and one by 0 tells the offset |
| Calls.PReadGives | xv6fs/src/sysfile.c:78-96 | The bytes at `off`, and the offset behind them; a negative `off` is refused when the offset has moved there |
| Calls.PWriteThenPRead | xv6fs/src/sysfile.c:78-115 | A complete pwrite is read back by pread |
| Calls.DupGives | xv6fs/src/sysfile.c:41-51 | The lowest free descriptor from 3 on if there is one, with the same open file and so the same offset; nothing else changes |
| Calls.DupThenClose | xv6fs/src/sysfile.c:41-126 | close undoes dup precisely |
| Calls.CloseGives | xv6fs/src/sysfile.c:117-126 | Nothing is behind the descriptor, and behind all others is what was there; the file goes if and only if it has no link, no other descriptor leads to it and no failed create has pinned it |
| Dispatch.Serve | xv6fs/src/main.c:164-201 | Every call of the switch does what its contract says, and keeps the whole invariant if and only if it did not truncate a file with a double-indirect block |
| Dispatch.EmptyEntryIsRoom | xv6fs/src/main.c:164-201 | An empty entry of the inode table is room enough for any call of the switch |
| Dispatch.Run | xv6fs/src/main.c:142-218 | The loop: calls are served until one is against the rules, goes through a full inode table, or was a truncation that dangles, and the invariant holds unless it was that |
| Dispatch.StepKeepsOrder | xv6fs/src/main.c:164-201 | Any step of a run keeps the server in order if and only if it is not a truncation that dangles |
| Dispatch.RunKeepsOrder | xv6fs/src/main.c:142-218 | However long a run is, the server is in order up to the first such truncation, and out of order right after it |
| Dispatch.StepKeepsTidy | xv6fs/src/main.c:164-201 | No call but a read from a hole loses a block or leaves one to be lost |
| Dispatch.RunKeepsTidy | xv6fs/src/main.c:142-218 | However long a run without such reads is, no block is lost |
| Runs.OnlyTouchingChanges | xv6fs/src/main.c:164-201 | A call that does not write through a writable descriptor of a file, truncate it, unlink its path or close it without links leaves the file as it is |
| Runs.RunKeepsFile | xv6fs/src/main.c:142-218 | A file stays the same over any run in which no call touches it |
| Runs.RunKeepsNames | xv6fs/src/main.c:142-218 | What paths name stays the same over any run in which no call creates or unlinks |
| Runs.RunReadsBack | xv6fs/src/main.c:142-218 | What one call writes a later one reads back through any descriptor of the file, if no call between touches it, and fewer bytes only where a block is missing |
| Runs.RunPReadsBack | xv6fs/src/main.c:142-218 | The same for pwrite and pread at one offset |
| Cache.PushKeepsRing | xv6fs/src/bio.c:112-115 | The four assignments put a buffer at the front of the ring |
| Cache.RemoveKeepsRing | xv6fs/src/bio.c:110-111 | The two assignments take a buffer off the ring |
| Cache.ViewIsUnique | xv6fs/src/bio.c:80-89 | Buffers and disk determine the flat array clients see |
| Cache.RecycleIsInvisibleIff | xv6fs/src/bio.c:65-75 | Recycling a buffer changes nothing clients see if and only if it was written back |
| Cache.SomeUnpinned | xv6fs/src/bio.c:64-76 | Fewer pins than buffers leave a buffer to recycle |
| Cache.BGetPanicsIff | xv6fs/src/bio.c:54-76 | "bget: no buffers" if and only if the block is not held and NBUF others are |
| Cache.FewHeldNeverPanic | xv6fs/src/bio.c:64-76 | Clients that hold fewer references than there are buffers never make bget panic |
| Cache.ReleaseKeepsAged | xv6fs/src/bio.c:107-116 | Moving a released buffer to the front keeps the list ordered by last release |
| Cache.Cache.constructor | xv6fs/src/bio.c:28-43 | binit builds a ring of all NBUF buffers |
| Cache.Cache.FindCached | xv6fs/src/bio.c:54-62 | The buffer of the block if one has it |
| Cache.Cache.FindUnpinned | xv6fs/src/bio.c:66-75 | The unpinned buffer released longest ago |
| Cache.Cache.BGet | xv6fs/src/bio.c:48-77 | A hit pins; a miss recycles the unpinned buffer released longest ago and forgets what it held |
| Cache.Cache.BRead | xv6fs/src/bio.c:80-89 | The buffer shows what the flat array holds; nothing is lost when clients write back |
| Cache.Cache.BWrite | xv6fs/src/bio.c:92-96 | The disk catches up, and clients see no change |
| Cache.Cache.BRelse | xv6fs/src/bio.c:100-119 | One pin less; the last one moves the buffer to the front |
| Cache.Cache.Do | xv6fs/src/bio.c:80-119 | One such operation takes the buffers from tracking the flat array to tracking the next one, with the same output |
| Cache.ReadsGiveLatest | xv6fs/src/bio.c:8-14 | In a flat array each read gives the data of the last change of the block before it, or what was in it at the start |
| Cache.ViewIsLatest | xv6fs/src/bio.c:8-14 | ... and that is what the run leaves in the block |
| Cache.Cache.Run | xv6fs/src/bio.c:8-14 | Any run of reads, changes, write-backs and releases, with any number of buffers held at a time, gives what a flat array of blocks gives |
| Unwritten.ReadKeeps | xv6fs/src/bio.c:65-75 | While fewer blocks have been touched than there are buffers, a new block takes a buffer that was never used |
| Unwritten.Do | xv6fs/src/bio.c:80-119 | One operation of a client that never writes back, on at most NBUF blocks, is that of a flat array |
| Unwritten.Run | xv6fs/src/bio.c:80-119 | A run without write-backs that touches at most NBUF blocks gives what a flat array gives |
| Unwritten.LoseChange | xv6fs/src/bio.c:65-75 | With one block more a change is lost: the block is read as it was on the disk |
| Channel.BlocksFit | ramdisk/src/main.c:104-117 | Block numbers below FSSIZE are exactly those inside the ramdisk |
| Channel.BlockOfWithBlock | ramdisk/src/main.c:111-117 | Writing a block changes that block of the ramdisk and no other |
| Channel.ServerKeepsInv | ramdisk/src/main.c:92-124 | Every step of the serve loop keeps the channel's invariant |
| Channel.ClientKeepsInv | xv6fs/src/main.c:56-78 | So does every step of disk_rw |
| Channel.AfterIsLastWrite | xv6fs/src/main.c:56-78 | What the ramdisk holds in a block is the last completed write to it |
| Channel.ChannelIsAtomicArray | xv6fs/src/main.c:56-78 | In every interleaving: one side in its critical section at a time, no panic, no access outside, each request served once, and reads return the last completed write |
| Channel.HistoryIsRequests | xv6fs/src/main.c:56-78 | The completed operations are those disk_rw was called with, in order, all of them or all but the last, which is then pending |
| Channel.RequestsAreAnswered | xv6fs/src/main.c:56-78 | A request to read a block gives what the last request before it to write that block asked to write, or what was there at the start; at rest the ramdisk holds the same |
| Channel.DiskRwReturns | xv6fs/src/main.c:56-78 | From every reachable state at most sixteen steps complete the pending disk_rw, and nothing else |
| Random.FoldIsStep | sqlite3/src/random.c:52-65 | Shift, mask and one subtraction give the product modulo 2^31 - 1, without overflow, and a good seed again |
| Random.StepIsBijection | sqlite3/src/random.c:52-65 | Every seed has exactly one predecessor, the one 1407677000 times it |
| Random.StepsFormula | sqlite3/src/random.c:52-65 | The seed after n calls is seed * 16807^n modulo 2^31 - 1 |
| Random.BadSeedsExactly | sqlite3/src/random.c:44-50 | A step gives a good seed if and only if it started from one |
| Random.Random.constructor | sqlite3/src/random.c:44-50 | The low 31 bits, with 0 and 2^31 - 1 replaced by 1 |
| Random.Random.Next | sqlite3/src/random.c:52-65 | The next seed of the Lehmer sequence, returned and kept |
| Histogram.BucketBounds | sqlite3/src/histogram.c:80-83 | A value's bucket is the one between whose limits it lies |
| Histogram.TallyIsAll | sqlite3/src/histogram.c:79-90 | The bucket counts add up to the number of samples |
| Histogram.Concatenated | sqlite3/src/histogram.c:91-100 | Sums and counts of a concatenation are those of its parts |
| Histogram.VarianceNotNegative | sqlite3/src/histogram.c:63-67 | The variance is never negative |
| Histogram.VarianceIsMeanSpread | sqlite3/src/histogram.c:63-67 | The variance is the mean of the squared distances from the mean |
| Histogram.PercentileIsPoint | sqlite3/src/histogram.c:37-56 | The bucket is the first up to whose end there are p percent of the samples, the point lies in it in proportion to the samples missing, and the result is it, cut to the least and greatest sample |
| Histogram.MedianOfThree | sqlite3/src/histogram.c:33-56 | The median of 0.5, 3.5 and 3.5 is 3.25 |
| Histogram.PercentileInRange | sqlite3/src/histogram.c:37-56 | A percentile lies between the least and the greatest sample |
| Histogram.PercentileIsMonotone | sqlite3/src/histogram.c:37-56 | Percentiles grow with the percentage |
| Histogram.PercentileInBucketOfOrderStatistic | sqlite3/src/histogram.c:37-56 | The percentile lies in the bucket of the k-th smallest sample, k being n * p / 100 rounded up |
| Histogram.DividesByZeroIff | sqlite3/src/histogram.c:37-56 | The search divides by zero if and only if n * p is not positive and the first bucket is empty |
| Histogram.NothingAskedFor | sqlite3/src/histogram.c:37-56 | One sample above the first limit, and percentile(0) divides by zero while percentile(50) does not |
| Histogram.Histogram.Clear | sqlite3/src/histogram.c:69-78 | The histogram of no samples |
| Histogram.Histogram.Add | sqlite3/src/histogram.c:79-90 | The histogram of the samples and one more |
| Histogram.Histogram.Merge | sqlite3/src/histogram.c:91-100 | The histogram of both sequences of samples, also when merged with itself |
| Histogram.Histogram.Percentile | sqlite3/src/histogram.c:37-56 | The percentile of the samples, for every call that does not divide by zero: the point where p percent of them are reached, or the greatest if p > 100 |
| Histogram.Histogram.Average | sqlite3/src/histogram.c:58-61 | The mean: times the count it is the sum |
| Histogram.Histogram.Variance | sqlite3/src/histogram.c:63-67 | The variance of the samples |
| Image.Numbers | xv6fs/src/fs.c:163-174 | Fifty metadata blocks, and the layout they are in |
| Image.SuperBlockRoundTrip | xv6fs/src/fs.c:35-41 | readsb finds what create_image stored |
| Image.BitsOfBitmap | xv6fs/src/fs.c:99-111 | init_balloc marks exactly the first blocks |
| Image.Formatter.RInode | xv6fs/src/fs.c:76-85 | The inode of that number |
| Image.Formatter.WInode | xv6fs/src/fs.c:64-74 | One inode changes, the others of its block do not |
| Image.Formatter.InitIAlloc | xv6fs/src/fs.c:87-97 | The next inode number, with a fresh inode |
| Image.Formatter.IAppend | xv6fs/src/fs.c:114-154 | The bytes are at the end of the inode, in its block or a new one |
| Image.Formatter.InitBAlloc | xv6fs/src/fs.c:99-111 | The bitmap block has exactly its first bits set, for any count below BPB |
| Image.Formatter.CreateImage | xv6fs/src/fs.c:156-211 | Exactly 51 blocks marked, the root inode in place, all others free |
| Image.RootDirectory | xv6fs/src/fs.c:193-201 | The root holds "." and ".." and nothing else |
| Image.FormattedInv | xv6fs/src/fs.c:156-211 | The formatted disk satisfies the invariant, and no block is leaked |
| Image.FormattedNs | xv6fs/src/fs.c:156-211 | Its name space is in order and all other inodes are free |
| Image.Boot | xv6fs/src/main.c:131-140 | Formatting any disk and starting the server gives a server in order |
| Examples.TruncateBig | xv6fs/src/fs.c:630-648 | Calls after which an open with O_TRUNC leaves a file with the number of a block that is not in use |
| Examples.ReadHole | xv6fs/src/fs.c:668-692 | Calls after which a block that readi allocated is in use and belongs to no file |
| Examples.FillTable | xv6fs/src/sysfile.c:263-269 | Calls after which the server is in order and looking a name up panics |
| Overflow.LinkTooOften | xv6fs/src/sysfile.c:159-171 | Calls after which a link count of 0x7fff has turned to -0x8000 and the name space is in disorder |

## Left out

- Sysfile.Create: does not model the T_DIR branch (a new directory's "." and ".."), since no call the server dispatches reaches it; it models files and devices.
- Sysfile.Unlink: the branches for directories are shown unreachable, because the root is the only directory there is; isdirempty is not modelled.
- Image.Formatter.IAppend: only bytes that fit in the block at the end of the inode, among the direct blocks; formatting appends two 64-byte entries.
- Dispatch.Run: the loop stops at a path when no entry of the inode table is empty, also if the call would find all it needs; Dispatch.RunKeepsOrder has no such limit.  Neither goes on after a call that writes to a directory, seeks from the end past it, or truncates so that a pointer dangles.
- Dispatch.Serve: fstat, getcwd and lstat are not among its calls; they copy fields, and lstat keeps a reference as create does.  link and dup have contracts on the server, but the switch does not reach them.
- Runs.RunReadsBack: for runs in which no truncation dangles, because the server is out of order after one; for files other than the root directory.
- Server.Server.FileSeek: requires what the source asserts, that a seek from the end does not go past it.
- Cache.Cache.BGet: one device, as disk_rw knows only one; a buffer of device 0 has never been used.
- Histogram.Histogram.Percentile: requires that the division is not by zero, and no more; median is the percentile at 50.
- The device number of inodes: there is one device, so dev is dropped from inodes, iget and ialloc, and link's test of dev always passes.
- The cache under the file system: the file system is verified over a flat store that keeps writes, because its code never writes a buffer back; see Cache for when that matters.
- Crash recovery and durability: there is no log, begin_op and end_op are comments.
- mkdir, mknod, chdir: not dispatched by the server.
- Pipes: FD_PIPE is never made.  Device drivers: none is registered, so reads and writes of devices return -EINVAL.
- argint, argstr, argaddr, acquire, release, Call and Wait are not part of this model; a path is a sequence of bytes without NUL, the lock is atomic, Wait returns with the lock held and label 0, Call returns the status with it released, and the shared label is initially 0.
- The order of the start: the source looks "/" up before it formats the disk (xv6fs/src/main.c:132-139), which touches only the inode table; the model formats first.
- The server's ofile array is taken to be zeroed, although it comes from an uncleared malloc (xv6fs/src/main.c:131).
- On the channel, an unknown or DISK_INIT label makes the ramdisk write through an unset pointer (ramdisk/src/main.c:100-123); disk_rw sends neither, so it is modelled as answering -EINVAL.
- The other transports (TEST_NORMAL, TEST_UINTR), process start-up and page mapping: foreign calls.
- bpin and bunpin: unused; the order of the cache's list is stated for runs without them.
- Floating point: the histogram is over the reals, and its limits are any strictly increasing positive sequence.  The square root in standard_deviation is left out.
- random_string, compressible_string, rand_uniform and the rest of the benchmark: input, output and library wrappers.
- addrs[NDIRECT + 1] after itrunc stays as the code leaves it; no corrected version is modelled.
