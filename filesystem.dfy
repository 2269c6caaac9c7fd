/**
 * The `FS` class of fs.cpp: the in-memory FAT, the current directory block and
 * the block device, with the operations that change them in place.
 */
module FileSystem {
  import opened Layout
  import opened Fat
  import opened Directory
  import opened Files

  class FS {
    const cfg: Config
    /** The in-memory FAT; `load_fat` is never called, so this copy is authoritative. */
    const fat: array<int>
    var currentDir: int
    /** The block device, block index to block contents. */
    var disk: map<int, Block>

    ghost predicate Valid()
      reads this
    {
      cfg.Valid() && fat.Length == cfg.FatEntries()
    }

    /**
     * The header that fixes the initial values of `fat` and `current_dir`, and the
     * disk object, are not part of this model, so they are passed in.
     */
    constructor (cfg: Config, disk: map<int, Block>, fat0: seq<int>, currentDir: int)
      requires cfg.Valid() && |fat0| == cfg.FatEntries()
      ensures Valid() && fresh(fat)
      ensures this.cfg == cfg && fat[..] == fat0 && this.disk == disk && this.currentDir == currentDir
    {
      this.cfg := cfg;
      this.fat := new int[|fat0|](i requires 0 <= i < |fat0| => fat0[i]);
      this.disk := disk;
      this.currentDir := currentDir;
    }

    /** `format`: reset the FAT, save it, write an empty root directory and make it current. */
    method Format() returns (r: int)
      requires Valid()
      modifies this, fat
      ensures Valid()
      ensures r == 0
      ensures fat[..] == FormattedFat(cfg)
      ensures currentDir == cfg.rootBlock
      ensures disk == FormatDisk(cfg, old(disk))
    {
      var fatEntries := cfg.blockSize / 2;
      for i := 0 to fatEntries
        invariant forall j :: 0 <= j < i ==> fat[j] == cfg.fatFree
        modifies fat
      {
        fat[i] := cfg.fatFree;
      }
      fat[cfg.rootBlock] := cfg.fatEof;
      fat[cfg.fatBlock] := cfg.fatEof;
      assert fat[..] == FormattedFat(cfg);
      var _ := SaveFat();
      assert disk == old(disk)[cfg.fatBlock := FatImage(FormattedFat(cfg))];
      var entries := new DirEntry[cfg.dirSlots](_ => ZERO_ENTRY);
      assert entries[..] == EmptyTable(cfg);
      var _ := WriteDir(cfg.rootBlock, entries);
      assert disk == old(disk)[cfg.fatBlock := FatImage(FormattedFat(cfg))][cfg.rootBlock := DirImage(EmptyTable(cfg))];
      currentDir := cfg.rootBlock;
      r := 0;
    }

    /** `load_fat`: copy the FAT image on the FAT block into memory. */
    method LoadFat() returns (r: int)
      requires Valid()
      modifies fat
      ensures r == 0 && fat[..] == FatTable(cfg, disk)
    {
      var image := FatTable(cfg, disk);
      forall i | 0 <= i < fat.Length {
        fat[i] := image[i];
      }
      r := 0;
    }

    /** `save_fat`: copy the in-memory FAT onto the FAT block. */
    method SaveFat() returns (r: int)
      requires Valid()
      modifies this`disk
      ensures r == 0 && disk == old(disk)[cfg.fatBlock := FatImage(fat[..])]
    {
      disk := disk[cfg.fatBlock := FatImage(fat[..])];
      r := 0;
    }

    /** `read_dir`: copy the directory table on `block` into `entries`. */
    method ReadDir(block: int, entries: array<DirEntry>) returns (r: int)
      requires Valid() && entries.Length == cfg.dirSlots
      modifies entries
      ensures r == 0 && entries[..] == DirTable(cfg, disk, block)
    {
      var table := DirTable(cfg, disk, block);
      forall i | 0 <= i < entries.Length {
        entries[i] := table[i];
      }
      r := 0;
    }

    /** `write_dir`: copy `entries` onto `block`. */
    method WriteDir(block: int, entries: array<DirEntry>) returns (r: int)
      requires Valid()
      modifies this`disk
      ensures r == 0 && disk == old(disk)[block := DirImage(entries[..])]
    {
      disk := disk[block := DirImage(entries[..])];
      r := 0;
    }

    /** `find_free_block`: the lowest index of a free FAT entry, or -1. */
    method FindFreeBlock() returns (r: int)
      requires Valid()
      ensures -1 <= r < fat.Length
      ensures r == -1 ==> forall i :: 0 <= i < fat.Length ==> fat[i] != cfg.fatFree
      ensures r >= 0 ==> fat[r] == cfg.fatFree && forall i :: 0 <= i < r ==> fat[i] != cfg.fatFree
    {
      var fatEntries := cfg.blockSize / 2;
      for i := 0 to fatEntries
        invariant forall j :: 0 <= j < i ==> fat[j] != cfg.fatFree
      {
        if fat[i] == cfg.fatFree {
          return i;
        }
      }
      return -1;
    }

    /** `find_free_dir_entry`: the lowest slot with an empty name, or -1. */
    method FindFreeDirEntry(entries: array<DirEntry>) returns (r: int)
      requires Valid() && entries.Length == cfg.dirSlots
      ensures -1 <= r < entries.Length
      ensures r == -1 ==> forall i :: 0 <= i < entries.Length ==> !IsFree(entries[i])
      ensures r >= 0 ==> IsFree(entries[r]) && forall i :: 0 <= i < r ==> !IsFree(entries[i])
    {
      var max := cfg.dirSlots;
      for i := 0 to max
        invariant forall j :: 0 <= j < i ==> !IsFree(entries[j])
      {
        if entries[i].fileName == [] {
          return i;
        }
      }
      return -1;
    }

    /** `find_dir_entry_index`: the lowest slot whose name is exactly `name`, or -1. */
    method FindDirEntryIndex(entries: array<DirEntry>, name: string) returns (r: int)
      requires Valid() && entries.Length == cfg.dirSlots
      ensures -1 <= r < entries.Length
      ensures r == -1 ==> forall i :: 0 <= i < entries.Length ==> entries[i].fileName != name
      ensures r >= 0 ==> entries[r].fileName == name && forall i :: 0 <= i < r ==> entries[i].fileName != name
    {
      var max := cfg.dirSlots;
      for i := 0 to max
        invariant forall j :: 0 <= j < i ==> entries[j].fileName != name
      {
        if name == entries[i].fileName {
          return i;
        }
      }
      return -1;
    }

    /**
     * Step 5 of `create`: split a non-empty payload into `BLOCK_SIZE` chunks, each
     * written to the block `find_free_block` returns and linked after the previous
     * one, the last one marked end-of-chain. On running out of blocks it stops
     * with `ok` false, leaving the links and blocks written so far in place.
     */
    method WriteChain(data: string) returns (ok: bool, firstBlock: int)
      requires Valid() && |data| > 0
      modifies this`disk, fat
      ensures var a := AllocFrom(cfg, data, old(fat[..]), old(disk), 0, -1, cfg.fatEof);
        && ok == a.Allocated?
        && fat[..] == a.fat && disk == a.disk
        && (ok ==> firstBlock == a.first)
    {
      ghost var target := AllocFrom(cfg, data, fat[..], disk, 0, -1, cfg.fatEof);
      var fileSize := |data|;
      firstBlock := cfg.fatEof;
      var pos := 0;
      var prevBlock := -1;
      while pos < fileSize
        invariant 0 <= pos <= fileSize
        invariant prevBlock == -1 || 0 <= prevBlock < fat.Length
        invariant pos == fileSize ==> prevBlock != -1
        invariant AllocFrom(cfg, data, fat[..], disk, pos, prevBlock, firstBlock) == target
        decreases fileSize - pos
      {
        ghost var fat0, disk0, pos0, prev0, first0 := fat[..], disk, pos, prevBlock, firstBlock;
        var block := FindFreeBlock();
        if block == -1 {
          assert FirstFree(fat0, cfg.fatFree) == -1;
          return false, firstBlock;
        }
        assert FirstFree(fat0, cfg.fatFree) == block;
        if firstBlock == cfg.fatEof {
          firstBlock := block;
        }
        if prevBlock != -1 {
          fat[prevBlock] := block;
        }
        prevBlock := block;
        var chunk := Min(cfg.blockSize, fileSize - pos);
        var buffer := Pad(cfg, data[pos..pos + chunk]);
        pos := pos + chunk;
        disk := disk[block := Bytes(buffer)];
        assert fat[..] == if prev0 != -1 then fat0[prev0 := block] else fat0;
      }
      fat[prevBlock] := cfg.fatEof;
      ok := true;
    }

    /**
     * `create(filepath)`, with the lines the C++ reads from standard input given
     * as `lines`.
     */
    method Create(filepath: string, lines: seq<string>) returns (r: int)
      requires Valid()
      modifies this`disk, fat
      ensures Outcome(r, fat[..], disk) == CreateSpec(cfg, old(fat[..]), old(disk), currentDir, filepath, lines)
    {
      ghost var spec := CreateSpec(cfg, fat[..], disk, currentDir, filepath, lines);
      var entries := new DirEntry[cfg.dirSlots];
      var _ := ReadDir(currentDir, entries);
      ghost var slots := entries[..];

      var existing := FindDirEntryIndex(entries, filepath);
      assert slots == entries[..];
      if existing != -1 {
        assert FirstNamed(slots, filepath) != -1;
        return -1;
      }
      assert FirstNamed(slots, filepath) == -1;

      var data := ReadPayload(lines);
      var fileSize := |data|;
      var firstBlock := cfg.fatEof;
      ghost var target := AllocPayload(cfg, data, fat[..], disk);
      if fileSize != 0 {
        var ok;
        ok, firstBlock := WriteChain(data);
        if !ok {
          assert spec == Outcome(-2, fat[..], disk);
          return -2;
        }
      }
      assert target == Allocated(fat[..], disk, firstBlock);

      var _ := SaveFat();
      assert spec.fat == fat[..];

      var freeIdx := FindFreeDirEntry(entries);
      assert slots == entries[..];
      if freeIdx == -1 {
        assert FirstFreeSlot(slots) == -1;
        assert spec == Outcome(-3, fat[..], disk);
        return -3;
      }
      assert FirstFreeSlot(slots) == freeIdx;
      entries[freeIdx] := NewEntry(cfg, filepath, fileSize, firstBlock);
      assert entries[..] == slots[freeIdx := NewEntry(cfg, filepath, fileSize, firstBlock)];
      var _ := WriteDir(currentDir, entries);
      assert spec == Outcome(0, fat[..], disk);
      r := 0;
    }

    /** `cat(filepath)`: the return code and the bytes printed. */
    method Cat(filepath: string) returns (r: int, text: string)
      requires Valid()
      ensures Output(r, text) == CatSpec(cfg, fat[..], disk, currentDir, filepath)
    {
      ghost var table := fat[..];
      var entries := new DirEntry[cfg.dirSlots];
      var _ := ReadDir(currentDir, entries);
      ghost var slots := entries[..];

      var idx := FindDirEntryIndex(entries, filepath);
      assert slots == entries[..];
      if idx == -1 {
        assert FirstNamed(slots, filepath) == -1;
        return -1, [];
      }
      assert FirstNamed(slots, filepath) == idx;
      var e := entries[idx];
      if e.entryType != cfg.typeFile {
        return -2, [];
      }
      assert CatSpec(cfg, table, disk, currentDir, filepath) == Output(0, Walk(cfg, table, disk, e.firstBlk, e.size));
      text := ReadChain(e.firstBlk, e.size);
      r := 0;
    }

    /**
     * The printing loop of `cat`: `min(BLOCK_SIZE, remaining)` bytes of each
     * block of the chain from `start`, following the FAT.
     */
    method ReadChain(start: int, size: int) returns (text: string)
      requires Valid()
      ensures text == Walk(cfg, fat[..], disk, start, size)
    {
      ghost var table := fat[..];
      WalkFromIsWalk(cfg, table, disk, start, size, []);
      assert [] + Walk(cfg, table, disk, start, size) == Walk(cfg, table, disk, start, size);
      var block := start;
      var remaining := size;
      text := [];
      while block != cfg.fatEof && remaining > 0
        invariant WalkFrom(cfg, table, disk, block, remaining, text) == Walk(cfg, table, disk, start, size)
        decreases remaining
      {
        if !(0 <= block < fat.Length) {
          break;
        }
        var buffer := DataAt(cfg, disk, block);
        var toPrint := Min(cfg.blockSize, remaining);
        assert fat[block] == table[block];
        text := text + buffer[..toPrint];
        remaining := remaining - toPrint;
        block := fat[block];
      }
    }

    /** `ls`: the return code and the (name, size) lines printed, in slot order. */
    method Ls() returns (r: int, lines: seq<(string, int)>)
      requires Valid()
      ensures r == 0 && lines == Listing(DirTable(cfg, disk, currentDir))
    {
      var entries := new DirEntry[cfg.dirSlots];
      var _ := ReadDir(currentDir, entries);

      lines := [];
      var max := cfg.dirSlots;
      for i := 0 to max
        invariant lines == Listing(entries[..i])
      {
        assert entries[..i + 1][..i] == entries[..i];
        if entries[i].fileName == [] {
          continue;
        }
        lines := lines + [(entries[i].fileName, entries[i].size)];
      }
      assert entries[..] == entries[..max];
      r := 0;
    }
  }

  /** One line of input taken off the front of the payload. */
  lemma PayloadStep(lines: seq<string>, k: int)
    requires 0 <= k < |lines| && lines[k] != []
    ensures Payload(lines[k..]) == lines[k] + "\n" + Payload(lines[k + 1..])
  {
    assert lines[k..][1..] == lines[k + 1..];
  }

  /**
   * The input loop of `create`: read lines until an empty one, appending each
   * with its newline. The lines are newline-terminated, so running out of
   * them reads as an empty line.
   */
  method ReadPayload(lines: seq<string>) returns (data: string)
    ensures data == Payload(lines)
  {
    data := [];
    var k := 0;
    assert [] + Payload(lines) == Payload(lines);
    assert lines[0..] == lines;
    while true
      invariant 0 <= k <= |lines|
      invariant data + Payload(lines[k..]) == Payload(lines)
      decreases |lines| - k
    {
      var line := if k < |lines| then lines[k] else [];
      if line == [] {
        assert Payload(lines[k..]) == [];
        assert data + [] == data;
        break;
      }
      PayloadStep(lines, k);
      Reassociate(data, line + "\n", Payload(lines[k + 1..]));
      data := data + (line + "\n");
      k := k + 1;
    }
  }
}
