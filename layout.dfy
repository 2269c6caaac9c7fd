/**
 * On-disk layout of the file system: the constants the C++ header fixes,
 * directory entries, and the contents of one disk block.
 *
 * The block device is a map from block index to block contents. The FAT and
 * the directory are stored as whole-table images instead of the byte-level
 * reinterpretation the C++ code performs with memcpy.
 */
module Layout {

  /** The constants of fs.h, which are not part of this model, passed in as one value. */
  datatype Config = Config(
    blockSize: int,    // BLOCK_SIZE
    fatFree: int,      // FAT_FREE
    fatEof: int,       // FAT_EOF
    rootBlock: int,    // ROOT_BLOCK
    fatBlock: int,     // FAT_BLOCK
    typeFile: int,     // TYPE_FILE
    readRight: bv8,    // READ
    writeRight: bv8,   // WRITE
    nameSize: int,     // sizeof(dir_entry::file_name), terminating NUL included
    dirSlots: int)     // BLOCK_SIZE / sizeof(dir_entry)
  {
    /** Number of FAT entries, and so of addressable blocks. */
    function FatEntries(): int { blockSize / 2 }

    predicate IsBlock(i: int) { 0 <= i < FatEntries() }

    /**
     * What the file system relies on: the two markers differ, the two reserved
     * blocks differ and are addressable, and the end-of-chain marker is never a
     * block index, so a chain link can never be mistaken for it.
     */
    predicate Valid() {
      && fatFree != fatEof
      && rootBlock != fatBlock
      && IsBlock(rootBlock)
      && IsBlock(fatBlock)
      && !IsBlock(fatEof)
      && nameSize >= 1
      && dirSlots >= 0
    }
  }

  /**
   * One directory slot. `fileName` is the C string held in the fixed-size
   * `file_name` array, up to (not including) its first NUL; a slot whose name is
   * empty is free.
   */
  datatype DirEntry = DirEntry(
    fileName: string,
    size: int,
    firstBlk: int,
    entryType: int,
    accessRights: bv8)

  /** A slot after `memset(&e, 0, sizeof(dir_entry))`. */
  const ZERO_ENTRY := DirEntry([], 0, 0, 0, 0)

  predicate IsFree(e: DirEntry) { e.fileName == [] }

  /** The contents of one disk block. */
  datatype Block =
    | Bytes(data: seq<char>)
    | FatImage(entries: seq<int>)
    | DirImage(slots: seq<DirEntry>)

  function Min(a: int, b: int): int { if a <= b then a else b }

  function Zeros(n: nat): (z: seq<char>)
    ensures |z| == n && forall i :: 0 <= i < n ==> z[i] == '\0'
  {
    seq(n, _ => '\0')
  }

  /** A chunk copied into a zero-filled block buffer. */
  function Pad(cfg: Config, chunk: seq<char>): (buffer: seq<char>)
    requires |chunk| <= cfg.blockSize
    ensures |buffer| == cfg.blockSize
    ensures buffer[..|chunk|] == chunk
    ensures forall i :: |chunk| <= i < cfg.blockSize ==> buffer[i] == '\0'
  {
    chunk + Zeros(cfg.blockSize - |chunk|)
  }

  /**
   * The bytes `disk.read` delivers for block `i`. A block that was never
   * written with file data reads as zeros.
   */
  function DataAt(cfg: Config, disk: map<int, Block>, i: int): (buffer: seq<char>)
    requires cfg.Valid()
    ensures |buffer| == cfg.blockSize
  {
    if i in disk && disk[i].Bytes? && |disk[i].data| == cfg.blockSize then disk[i].data
    else Zeros(cfg.blockSize)
  }

  /** The directory table `read_dir` loads from block `i`; a block not holding one reads as all free slots. */
  function DirTable(cfg: Config, disk: map<int, Block>, i: int): (slots: seq<DirEntry>)
    requires cfg.Valid()
    ensures |slots| == cfg.dirSlots
  {
    if i in disk && disk[i].DirImage? && |disk[i].slots| == cfg.dirSlots then disk[i].slots
    else seq(cfg.dirSlots, _ => ZERO_ENTRY)
  }

  /** The FAT `load_fat` loads from the FAT block; a block not holding one reads as all zero entries. */
  function FatTable(cfg: Config, disk: map<int, Block>): (fat: seq<int>)
    requires cfg.Valid()
    ensures |fat| == cfg.FatEntries()
  {
    var i := cfg.fatBlock;
    if i in disk && disk[i].FatImage? && |disk[i].entries| == cfg.FatEntries() then disk[i].entries
    else seq(cfg.FatEntries(), _ => 0)
  }

  /** Concatenation regrouped. */
  lemma Reassociate<T>(a: seq<T>, b: seq<T>, c: seq<T>)
    ensures a + (b + c) == a + b + c
  {
  }

  /** Block `k` holds the same thing (or nothing) in both disks. */
  predicate SameBlock(d: map<int, Block>, d': map<int, Block>, k: int) {
    (k in d <==> k in d') && (k in d ==> d[k] == d'[k])
  }
}
