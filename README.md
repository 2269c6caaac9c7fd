# A FAT file system on a block device, in Dafny

This project models the `FS` class of `fs.cpp`, a small file system on a block
device. It has one File Allocation Table (FAT) and one flat directory table.
The FAT has one entry per block: `FAT_FREE`, `FAT_EOF`, or the index of the next
block in a file's chain. Each directory slot holds a file's name, size, first
block, type and access rights. The model covers these operations:

- `format` resets the FAT, writes an empty root directory and makes it current.
- `create` reads the payload lines, allocates and links one block per
  `BLOCK_SIZE` chunk, saves the FAT, and fills the lowest free directory slot.
- `cat` follows a file's chain, printing `min(BLOCK_SIZE, remaining)` bytes
  from each block.
- `ls` lists the occupied slots.
- The first-fit helpers `find_free_block`, `find_free_dir_entry` and
  `find_dir_entry_index`.
- `load_fat`, `save_fat`, `read_dir` and `write_dir`, as whole-table transfers.

Layout of the project:

- `layout.dfy` (module `Layout`) holds the header constants as a `Config` value,
  the directory entry, and the contents of a disk block. The disk is a map from
  block index to block contents. The FAT and the directory are stored on it as
  whole-table images.
- `fat.dfy` (module `Fat`) holds first-fit search over the FAT and the table
  `format` produces.
- `directory.dfy` (module `Directory`) holds the two directory searches, the
  listing, and the name `strncpy` stores.
- `files.dfy` (module `Files`) states `format`, `create` and `cat` as functions
  of the state they start from. `CreateSpec` returns the code and the FAT and
  disk that `create` leaves. `CatSpec` returns the code and the bytes printed.
  `Walk` is the chain walk of `cat`. `AllocFrom` is the allocation loop of
  `create`.
- `filesystem.dfy` (module `FileSystem`) is the class `FS`. It has the fields
  `fat` (an array), `currentDir` and `disk`, and methods that update them in
  place with the same loops as the C++. `Format`, `Create`, `Cat`, `WriteChain`,
  `ReadChain` and `ReadPayload` are proved equal to the function in `Files`
  that specifies them. `Ls` is proved equal to `Directory.Listing`. The three
  `Find` methods have contracts that say which index they return.
- `properties.dfy` (module `Properties`) proves what the operations promise.
  The lemmas are stated over those functions.

The specification functions `CreateSpec`, `CatSpec`, `AllocFrom`, `Walk`,
`Listing`, `DataAt`, `DirTable` and `FatTable` are definitions that mirror the
code. Their own contracts only fix lengths. What they promise is proved in the
lemmas of `Properties` listed below.

The allocation loop of `create` reproduces the code's defect. The block
`find_free_block` returns is only marked in the FAT when the next iteration
links it, so the next iteration is handed the same block again. A payload of
more than `BLOCK_SIZE` bytes therefore overwrites its own chunks.
`TwoBlockAllocReusesBlock` and `CreateLargeFileLosesData` state the outcome for
payloads of up to two blocks. The round trip `cat` after `create` is proved for
payloads of at most `BLOCK_SIZE` bytes, where the defect does not arise.

The model follows what the code does. This differs from what a reader of the
interface might expect in these ways:

- Looking up a name does not skip free slots. So the empty name matches the
  lowest free slot, and `create("")` can never succeed.
- `create` does not reject names containing a path separator.
- `find_free_block` scans from index 0. The reserved blocks are skipped only
  because their entries are not `FAT_FREE`.
- When blocks run out, `create` does not roll back. The in-memory FAT keeps the
  links made so far, and the chunks already written stay on disk. The FAT is
  not saved.
- `cat` returns 0 whether or not the chain covers the recorded size.
- The FAT is never reloaded from disk by an operation; the in-memory copy is
  authoritative.

## Model

| member | source | states |
|---|---|---|
| Layout.Pad | fs.cpp:92-96 | the block buffer is `BLOCK_SIZE` bytes long, starts with the chunk and is zero after it |
| Fat.FirstFree | fs.cpp:292-298 | first fit: -1 exactly when no entry is free, else an index whose entry is free with no free entry below it |
| Fat.FormattedFat | fs.cpp:20-26 | the table `format` builds has `BLOCK_SIZE / 2` entries: `FAT_EOF` at the root and FAT blocks, `FAT_FREE` everywhere else |
| Directory.FirstFreeSlot | fs.cpp:300-307 | -1 exactly when every slot has a name, else a slot with an empty name and none below it |
| Directory.FirstNamed | fs.cpp:309-316 | -1 exactly when no slot's name equals the given one, else the lowest slot whose name equals it |
| Directory.CString | fs.cpp:116 | what `c_str()` means to `strncpy`: the prefix of the string before its first NUL |
| Directory.StoredName | fs.cpp:115-116 | the stored name is the given name up to its first NUL, cut to `sizeof(file_name)-1` characters: a prefix of the given name, of exactly that length, with no NUL; a name that fits and has no NUL is stored unchanged |
| Directory.NewEntry | fs.cpp:113-120 | the slot `create` fills: the stored name, the size, the chain head, `TYPE_FILE` and `READ|WRITE`. It is free exactly when nothing of the name survives `strncpy`. `CreateFillsLowestFreeSlot` places it in the table |
| Directory.Listing | fs.cpp:176-184 | the (name, size) lines of the occupied slots in slot order, at most one per slot. `ListingMembers`, `ListingEmpty` and `ListingSingle` state its contents |
| Layout.DataAt | fs.cpp:153-154 | the `BLOCK_SIZE` bytes `disk.read` gives for a block; a block not written with file data reads as zeros. `WalkOneBlock` and `CatOfNewFile` read back what `create` wrote |
| Layout.DirTable | fs.cpp:276-282 | the `dir_entry` table of `BLOCK_SIZE / sizeof(dir_entry)` slots that `read_dir` loads; a block not holding one reads as all free. `CreateFillsLowestFreeSlot` states it after `create` |
| Layout.FatTable | fs.cpp:260-266 | the table of `BLOCK_SIZE / 2` entries that `load_fat` loads from the FAT block. `SaveThenLoadFat` is its round trip with `save_fat` |
| Directory.EmptyTable | fs.cpp:30-31 | the zeroed table `format` writes has every slot free |
| Files.FormatDisk | fs.cpp:28-33 | after `format` the FAT block holds the formatted FAT, the root block an empty table, and every other block is unchanged |
| Files.Payload | fs.cpp:53-62 | the payload is empty exactly when the input is exhausted or its first line is empty |
| Files.AllocFrom | fs.cpp:74-103 | the allocation loop from a given point: each iteration takes the lowest free block, links the previous block to it and writes the next padded chunk there; at the end the last block is marked `FAT_EOF`; with no free block it stops with what it has done so far. The FAT keeps its length. `AllocTouchesOnlyFree`, `AllocKeepsHead`, `AllocHeadIsFirstFree`, `NoFreeBlockAllocatesNothing`, `OneBlockAlloc` and `TwoBlockAllocReusesBlock` state what it does |
| Files.AllocPayload | fs.cpp:64-103 | no allocation and chain head `FAT_EOF` for an empty payload, else `AllocFrom` from the start. The FAT keeps its length. `CreateEmptyFile` and `CreateSmallFile` use it |
| Files.CreateSpec | fs.cpp:42-126 | `create` as a function of the start state: -1 for an existing name, -2 when blocks run out, else the FAT saved, then -3 for a full directory or 0 with the lowest free slot filled. `CreateKeepsReserved`, `CreateFillsLowestFreeSlot`, `CreateEmptyFile`, `CreateDirectoryFull`, `CreateSmallFile` and `CreateThenCat` state its promises |
| Files.Walk | fs.cpp:147-161 | the bytes `cat` prints following the chain: `min(BLOCK_SIZE, remaining)` from each block, stopping at `FAT_EOF`, when nothing remains, or outside the FAT; never more than the size. `WalkLength` says when it prints the whole size |
| Files.CatSpec | fs.cpp:131-164 | `cat` as a function of the state: the code is 0, -1 or -2, and nothing is printed unless it is 0; on 0 it prints the walk of the first slot with the name. `CatErrors`, `CatOfNewEntry` and `CreateThenCat` state its promises |
| Files.WalkFromIsWalk | fs.cpp:151-161 | the output the printing loop accumulates is what it had printed before, followed by the walk of the rest of the chain |
| FileSystem.FS.constructor | fs.cpp:7-10 | the FS starts on the given disk, FAT contents and current directory |
| FileSystem.FS.Format | fs.cpp:18-37 | returns 0; the FAT becomes the formatted table, the disk becomes `FormatDisk` of the old disk, the current directory becomes the root block |
| FileSystem.FS.LoadFat | fs.cpp:260-266 | returns 0; the in-memory FAT becomes the table stored on the FAT block |
| FileSystem.FS.SaveFat | fs.cpp:268-274 | returns 0; only the FAT block changes, and it now holds the in-memory FAT |
| FileSystem.FS.ReadDir | fs.cpp:276-282 | returns 0; the entries array becomes the table stored on the block |
| FileSystem.FS.WriteDir | fs.cpp:284-290 | returns 0; only the given block changes, and it now holds the entries |
| FileSystem.FS.FindFreeBlock | fs.cpp:292-298 | changes nothing; -1 when no FAT entry is free, else the lowest free index |
| FileSystem.FS.FindFreeDirEntry | fs.cpp:300-307 | changes nothing; -1 when every slot has a name, else the lowest slot with an empty name |
| FileSystem.FS.FindDirEntryIndex | fs.cpp:309-316 | changes nothing; -1 when no slot's name equals the given one, else the lowest slot whose name does |
| FileSystem.FS.WriteChain | fs.cpp:74-103 | the loop leaves exactly the FAT, disk, chain head and success flag of `AllocFrom`, including the partial state when blocks run out |
| FileSystem.ReadPayload | fs.cpp:53-62 | the input loop collects exactly `Payload` of the lines |
| FileSystem.FS.Create | fs.cpp:42-126 | the return code, new FAT and new disk are exactly those of `CreateSpec` on the old state |
| FileSystem.FS.Cat | fs.cpp:131-164 | the return code and printed bytes are exactly `CatSpec` of the current state |
| FileSystem.FS.ReadChain | fs.cpp:147-161 | the printing loop prints exactly `Walk` of the chain and size |
| FileSystem.FS.Ls | fs.cpp:168-187 | returns 0 and exactly the `Listing` of the current directory's table |
| Properties.FormatIdempotent | fs.cpp:18-37 | formatting twice leaves the same disk as formatting once |
| Properties.FormattedFirstFree | fs.cpp:20-26 | after `format` both reserved entries are in use, and the first free block is the lowest index that is neither reserved block (-1 if the FAT has only those two) |
| Properties.FirstFreeNeverReserved | fs.cpp:292-298 | while the reserved entries are in use, `find_free_block` returns neither the root block nor the FAT block |
| Properties.SaveThenLoadFat | fs.cpp:260-274 | `load_fat` after `save_fat` restores the saved table |
| Properties.EmptyNameFindsFreeSlot | fs.cpp:300-316 | looking up the empty name returns the lowest free slot |
| Properties.ListingMembers | fs.cpp:176-184 | `ls` prints a (name, size) line for every occupied slot, and every line it prints comes from an occupied slot |
| Properties.ListingEmpty | fs.cpp:176-184 | `ls` prints nothing exactly when every slot is free |
| Properties.ListingSingle | fs.cpp:176-184 | a table with one occupied slot lists that slot alone |
| Properties.PayloadAppendsLine | fs.cpp:55-62 | each further non-empty line appends itself and a newline to the payload |
| Properties.PayloadStopsAtEmptyLine | fs.cpp:55-59 | lines after the first empty line do not reach the payload |
| Properties.AllocTouchesOnlyFree | fs.cpp:78-102 | the allocation loop changes only FAT entries and disk blocks that were free when it started; entries in use keep their values |
| Properties.AllocKeepsHead | fs.cpp:84-85 | once the chain head is set, later iterations keep it |
| Properties.AllocHeadIsFirstFree | fs.cpp:80-85 | a completed chain starts at the block that was lowest free when `create` began |
| Properties.NoFreeBlockAllocatesNothing | fs.cpp:80-82 | with no free block the loop stops at once with the FAT and disk unchanged |
| Properties.OneBlockAlloc | fs.cpp:78-102 | a payload of at most `BLOCK_SIZE` bytes goes, zero padded, into the lowest free block, which is marked `FAT_EOF` and heads the chain |
| Properties.TwoBlockAllocReusesBlock | fs.cpp:80-100 | a payload of more than one and at most two blocks gets the same block twice; only the second chunk survives, and the chain is that one block |
| Properties.CreateExistingName | fs.cpp:49-50 | an existing name gives -1 with the FAT and disk unchanged |
| Properties.CreateKeepsReserved | fs.cpp:80-111 | the code is one of 0, -1, -2, -3; the reserved entries stay in use; on failure the directory block is unchanged; on -1 and -2 the FAT block is unchanged; on -3 the FAT block holds the new FAT |
| Properties.CreateFillsLowestFreeSlot | fs.cpp:109-123 | on success the name was absent, and only the lowest free slot changes. It gets the truncated name, the payload length, the chain head (`FAT_EOF` for an empty payload, else the lowest free block), `TYPE_FILE` and `READ|WRITE` |
| Properties.CreateEmptyFile | fs.cpp:64-111 | for an absent name and an empty payload, no block is allocated: the FAT is unchanged and saved as it is, no block other than the FAT block and the directory changes, and the result is -3 exactly when no slot is free, else 0 |
| Properties.CreateDirectoryFull | fs.cpp:105-111 | for an absent name whose payload was written without running out of blocks, the result is -3 exactly when no slot is free, else 0, and the FAT is the one the allocation left |
| Properties.CreateSmallFile | fs.cpp:78-111 | for 1 to `BLOCK_SIZE` bytes: -2 exactly when no block is free, and then nothing changes. Otherwise the lowest free block is used, never a reserved one; it is marked `FAT_EOF` and holds the padded payload; the FAT block holds the new FAT; the result is 0 exactly when a slot is free |
| Properties.CreateEmptyNameFails | fs.cpp:49-50 | `create` with the empty name never returns 0 |
| Properties.LongNameNotFoundAfterCreate | fs.cpp:116 | after creating a name longer than `file_name` holds, lookup by that name fails, so `cat` of it returns -1 |
| Properties.WalkLength | fs.cpp:151-161 | `cat` prints exactly the recorded size if and only if the chain has a block for every `BLOCK_SIZE` bytes of it |
| Properties.CatErrors | fs.cpp:138-145 | -1 exactly when no slot has the name; -2 exactly when the first slot with the name is not `TYPE_FILE`; nothing is printed on either |
| Properties.CatOfNewEntry | fs.cpp:138-149 | right after a name absent from the table is stored in a slot, `cat` finds that slot and walks its chain for its size |
| Properties.WalkOneBlock | fs.cpp:151-161 | a one-block chain marked `FAT_EOF` prints back the payload padded into its block |
| Properties.CatOfNewFile | fs.cpp:138-161 | a file of at most `BLOCK_SIZE` bytes just stored with its one-block chain reads back whole |
| Properties.CreateThenCat | fs.cpp:42-164 | after a successful `create` of a storable name with at most `BLOCK_SIZE` bytes, `cat` returns 0 and prints the payload exactly |
| Properties.CatOfReusedBlock | fs.cpp:147-161 | a file of one to two blocks whose chain is the single block holding its second chunk reads back as `BLOCK_SIZE` bytes of that chunk, not the file |
| Properties.CreateLargeFileLosesData | fs.cpp:80-102 | for more than one and at most two blocks, `create` does not fail for space. Only the zero-padded second chunk is stored, in the lowest free block marked `FAT_EOF`. On success `cat` prints that chunk, not the payload |
| Properties.FormattedCreateSucceeds | fs.cpp:18-126 | on a freshly formatted disk with a data block and a slot, creating a non-empty name with at most `BLOCK_SIZE` bytes returns 0 |
| Properties.FormatCreateLsCat | fs.cpp:18-187 | format, create, ls, cat: `create` returns 0, `ls` lists only the new file with its size, `cat` prints its payload |

## Left out

- Console output: the constructor message, the `ls` header line, and the trace lines of the stub commands. `cat` and `ls` return what they would print.
- `std::cin`: the lines `create` reads are a parameter. The model does not track which later lines remain unread.
- Files.Payload: the lines are taken to be newline-terminated. If the input ends in a line without a newline, the next `std::getline` fails without clearing `line`, and the loop in `create` appends that line forever. The model does not capture this non-termination.
- The `disk` object and fs.h are not part of this model. The disk is a map from block index to contents, with no failure or bound check on the index. The constants of fs.h are a `Config` value. `Config.Valid` assumes what the code relies on: `FAT_FREE != FAT_EOF`, `ROOT_BLOCK != FAT_BLOCK`, both reserved indices below `BLOCK_SIZE/2`, and `FAT_EOF` not a block index.
- Byte-level `memcpy` reinterpretation in `load_fat`, `save_fat`, `read_dir` and `write_dir`, and the binary layout of `dir_entry`. The FAT and the directory are stored as whole-table images. A block that holds the other kind of contents reads as zeros or as an all-free table.
- The stub commands `cp`, `mv`, `rm`, `append`, `mkdir`, `cd`, `pwd` and `chmod`. They only print and return 0, changing no state.
- Integer widths: the `uint16_t block` in `cat` compared with `FAT_EOF`, and the 16-bit FAT entries, are mathematical integers. The `int` casts in `create` are also unbounded.
- FileSystem.FS.Cat: on a chain link outside the FAT the C++ reads beyond the array; the model stops the walk there instead.
- FileSystem.FS.constructor: takes the initial disk, FAT contents and current directory as parameters, because the header that fixes them is not part of this model.
- Chain disjointness and the `cat`-after-`create` round trip for payloads over `BLOCK_SIZE` bytes: they do not hold, because of the block reuse described above. The outcome for up to two blocks is stated instead.
