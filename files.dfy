/**
 * The file operations of fs.cpp as functions of the state they start from:
 * `format`, `create` (payload assembly, chain allocation, directory update)
 * and `cat` (the chain walk). The methods of `FileSystem` are proved equal to
 * these, and the lemmas in `Properties` are stated about them.
 */
module Files {
  import opened Layout
  import opened Fat
  import opened Directory

  /** The disk after `format`: the FAT image saved, then a zeroed directory written to the root block. */
  function FormatDisk(cfg: Config, disk: map<int, Block>): (disk': map<int, Block>)
    requires cfg.Valid()
    ensures disk'.Keys == disk.Keys + {cfg.fatBlock, cfg.rootBlock}
    ensures FatTable(cfg, disk') == FormattedFat(cfg)
    ensures DirTable(cfg, disk', cfg.rootBlock) == EmptyTable(cfg)
    ensures forall k :: k in disk && k != cfg.fatBlock && k != cfg.rootBlock ==> disk'[k] == disk[k]
  {
    disk[cfg.fatBlock := FatImage(FormattedFat(cfg))][cfg.rootBlock := DirImage(EmptyTable(cfg))]
  }

  /**
   * The bytes `create` collects from its input: every line followed by a
   * newline, up to the first empty line. `lines` are the newline-terminated
   * lines still unread, so running out of them reads as an empty line.
   */
  function Payload(lines: seq<string>): (data: string)
    ensures |data| == 0 <==> |lines| == 0 || lines[0] == []
  {
    if |lines| == 0 || lines[0] == [] then [] else lines[0] + "\n" + Payload(lines[1..])
  }

  /** Where the allocation loop of `create` ends. */
  datatype Alloc =
    | Allocated(fat: seq<int>, disk: map<int, Block>, first: int)
    | OutOfBlocks(fat: seq<int>, disk: map<int, Block>)

  /**
   * The allocation loop of `create`, from the point where `pos` bytes are
   * written, `prev` is the block written last (-1 before the first) and
   * `first` the chain head so far (`cfg.fatEof` before the first). While bytes
   * remain, each iteration takes the lowest free block, links the previous block
   * to it and writes the next chunk there; the new block itself is not marked
   * until the next iteration links it. After the loop the last block is marked
   * end-of-chain.
   */
  function AllocFrom(cfg: Config, data: string, fat: seq<int>, disk: map<int, Block>,
                     pos: int, prev: int, first: int): (a: Alloc)
    requires cfg.Valid() && |fat| == cfg.FatEntries()
    requires 0 <= pos <= |data|
    requires prev == -1 || 0 <= prev < |fat|
    requires pos == |data| ==> prev != -1
    ensures |a.fat| == |fat|
    decreases |data| - pos
  {
    if pos == |data| then Allocated(fat[prev := cfg.fatEof], disk, first)
    else
      var block := FirstFree(fat, cfg.fatFree);
      if block == -1 then OutOfBlocks(fat, disk)
      else
        var first' := if first == cfg.fatEof then block else first;
        var fat' := if prev != -1 then fat[prev := block] else fat;
        var chunk := Min(cfg.blockSize, |data| - pos);
        var disk' := disk[block := Bytes(Pad(cfg, data[pos..pos + chunk]))];
        AllocFrom(cfg, data, fat', disk', pos + chunk, block, first')
  }

  /** The allocation `create` performs for a payload: none for an empty one. */
  function AllocPayload(cfg: Config, data: string, fat: seq<int>, disk: map<int, Block>): (a: Alloc)
    requires cfg.Valid() && |fat| == cfg.FatEntries()
    ensures |a.fat| == |fat|
  {
    if |data| == 0 then Allocated(fat, disk, cfg.fatEof)
    else AllocFrom(cfg, data, fat, disk, 0, -1, cfg.fatEof)
  }

  /** The return code of an operation and the FAT and disk it leaves. */
  datatype Outcome = Outcome(code: int, fat: seq<int>, disk: map<int, Block>)

  /** `create(name)` reading `lines`, with `dir` the current directory block. */
  function CreateSpec(cfg: Config, fat: seq<int>, disk: map<int, Block>, dir: int,
                      name: string, lines: seq<string>): (out: Outcome)
    requires cfg.Valid() && |fat| == cfg.FatEntries()
    ensures |out.fat| == |fat|
  {
    var slots := DirTable(cfg, disk, dir);
    if FirstNamed(slots, name) != -1 then Outcome(-1, fat, disk)
    else
      var data := Payload(lines);
      match AllocPayload(cfg, data, fat, disk)
      case OutOfBlocks(fat', disk') => Outcome(-2, fat', disk')
      case Allocated(fat', disk', first) =>
        var saved := disk'[cfg.fatBlock := FatImage(fat')];
        var slot := FirstFreeSlot(slots);
        if slot == -1 then Outcome(-3, fat', saved)
        else Outcome(0, fat', saved[dir := DirImage(slots[slot := NewEntry(cfg, name, |data|, first)])])
  }

  /**
   * The bytes `cat` prints while following the chain from `block` with
   * `remaining` bytes still to print: `min(BLOCK_SIZE, remaining)` from each
   * block. The walk stops at the end-of-chain marker, when nothing remains,
   * or at an index outside the FAT.
   */
  function Walk(cfg: Config, fat: seq<int>, disk: map<int, Block>, block: int, remaining: int): (text: string)
    requires cfg.Valid() && |fat| == cfg.FatEntries()
    ensures |text| <= if remaining < 0 then 0 else remaining
    decreases remaining
  {
    if block == cfg.fatEof || remaining <= 0 || !cfg.IsBlock(block) then []
    else
      var n := Min(cfg.blockSize, remaining);
      DataAt(cfg, disk, block)[..n] + Walk(cfg, fat, disk, fat[block], remaining - n)
  }

  /**
   * The walk as the printing loop of `cat` performs it: `printed` is what has
   * been printed so far, and each step appends one block's bytes to it.
   */
  function WalkFrom(cfg: Config, fat: seq<int>, disk: map<int, Block>, block: int, remaining: int,
                    printed: string): string
    requires cfg.Valid() && |fat| == cfg.FatEntries()
    decreases remaining
  {
    if block == cfg.fatEof || remaining <= 0 || !cfg.IsBlock(block) then printed
    else
      var n := Min(cfg.blockSize, remaining);
      WalkFrom(cfg, fat, disk, fat[block], remaining - n, printed + DataAt(cfg, disk, block)[..n])
  }

  /** The loop's accumulated output is what was printed before it followed by the walk. */
  lemma {:induction false} WalkFromIsWalk(cfg: Config, fat: seq<int>, disk: map<int, Block>, block: int,
                                          remaining: int, printed: string)
    requires cfg.Valid() && |fat| == cfg.FatEntries()
    ensures WalkFrom(cfg, fat, disk, block, remaining, printed) == printed + Walk(cfg, fat, disk, block, remaining)
    decreases remaining
  {
    if block == cfg.fatEof || remaining <= 0 || !cfg.IsBlock(block) {
      assert printed + [] == printed;
    } else {
      var n := Min(cfg.blockSize, remaining);
      var chunk := DataAt(cfg, disk, block)[..n];
      WalkFromIsWalk(cfg, fat, disk, fat[block], remaining - n, printed + chunk);
      Reassociate(printed, chunk, Walk(cfg, fat, disk, fat[block], remaining - n));
    }
  }

  /** The return code of `cat` and what it prints. */
  datatype Output = Output(code: int, text: string)

  /** `cat(name)` with `dir` the current directory block. */
  function CatSpec(cfg: Config, fat: seq<int>, disk: map<int, Block>, dir: int, name: string): (out: Output)
    requires cfg.Valid() && |fat| == cfg.FatEntries()
    ensures out.code == 0 || out.code == -1 || out.code == -2
    ensures out.code != 0 ==> out.text == []
  {
    var slots := DirTable(cfg, disk, dir);
    var idx := FirstNamed(slots, name);
    if idx == -1 then Output(-1, [])
    else if slots[idx].entryType != cfg.typeFile then Output(-2, [])
    else Output(0, Walk(cfg, fat, disk, slots[idx].firstBlk, slots[idx].size))
  }
}
