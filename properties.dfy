/**
 * What `format`, `create`, `cat` and `ls` promise, stated over the functions
 * the `FileSystem` methods are proved equal to.
 */
module Properties {
  import opened Layout
  import opened Fat
  import opened Directory
  import opened Files

  /**
   * The state every operation after `format` starts from: neither reserved
   * block is free and the current directory is the root block (`cd` never
   * changes it).
   */
  predicate Mounted(cfg: Config, fat: seq<int>, dir: int)
    requires cfg.Valid() && |fat| == cfg.FatEntries()
  {
    ReservedInUse(cfg, fat) && dir == cfg.rootBlock
  }

  // ---------------------------------------------------------------------
  // format

  /** Formatting a formatted disk changes nothing. */
  lemma FormatIdempotent(cfg: Config, disk: map<int, Block>)
    requires cfg.Valid()
    ensures FormatDisk(cfg, FormatDisk(cfg, disk)) == FormatDisk(cfg, disk)
  {
  }

  /** The lowest index that is neither reserved block. */
  function LowestUnreserved(cfg: Config): int {
    if 0 != cfg.rootBlock && 0 != cfg.fatBlock then 0
    else if 1 != cfg.rootBlock && 1 != cfg.fatBlock then 1
    else 2
  }

  /**
   * After `format` the reserved blocks are in use, and the first free block is
   * the lowest index that is neither reserved block; there is one exactly when
   * the FAT has more than the two reserved entries.
   */
  lemma FormattedFirstFree(cfg: Config)
    requires cfg.Valid()
    ensures ReservedInUse(cfg, FormattedFat(cfg))
    ensures FirstFree(FormattedFat(cfg), cfg.fatFree)
      == if cfg.FatEntries() > 2 then LowestUnreserved(cfg) else -1
  {
    var fat := FormattedFat(cfg);
    if cfg.FatEntries() > 2 {
      assert fat[LowestUnreserved(cfg)] == cfg.fatFree;
    } else {
      assert fat[0] != cfg.fatFree && fat[1] != cfg.fatFree;
    }
  }

  /** A FAT whose reserved entries are in use never hands out a reserved block. */
  lemma FirstFreeNeverReserved(cfg: Config, fat: seq<int>)
    requires cfg.Valid() && |fat| == cfg.FatEntries() && ReservedInUse(cfg, fat)
    ensures FirstFree(fat, cfg.fatFree) != cfg.rootBlock
    ensures FirstFree(fat, cfg.fatFree) != cfg.fatBlock
  {
  }

  /** `load_fat` after `save_fat` gives back the table that was saved. */
  lemma SaveThenLoadFat(cfg: Config, disk: map<int, Block>, fat: seq<int>)
    requires cfg.Valid() && |fat| == cfg.FatEntries()
    ensures FatTable(cfg, disk[cfg.fatBlock := FatImage(fat)]) == fat
  {
  }

  // ---------------------------------------------------------------------
  // Directory searches and the listing

  /**
   * A slot is free exactly when its name is empty, so looking up the empty
   * name finds the lowest free slot.
   */
  lemma {:induction false} EmptyNameFindsFreeSlot(slots: seq<DirEntry>)
    ensures FirstNamed(slots, []) == FirstFreeSlot(slots)
  {
    if |slots| > 0 {
      EmptyNameFindsFreeSlot(slots[1..]);
    }
  }

  /** `ls` prints a line for a slot exactly when the slot is occupied, and only such lines. */
  lemma {:induction false} ListingMembers(slots: seq<DirEntry>)
    ensures forall i :: 0 <= i < |slots| && !IsFree(slots[i]) ==> (slots[i].fileName, slots[i].size) in Listing(slots)
    ensures forall line :: line in Listing(slots) ==>
      exists i :: 0 <= i < |slots| && !IsFree(slots[i]) && line == (slots[i].fileName, slots[i].size)
  {
    if |slots| > 0 {
      var init := slots[..|slots| - 1];
      ListingMembers(init);
      assert forall i :: 0 <= i < |init| ==> init[i] == slots[i];
    }
  }

  /** `ls` prints nothing exactly when every slot is free. */
  lemma {:induction false} ListingEmpty(slots: seq<DirEntry>)
    ensures Listing(slots) == [] <==> forall i :: 0 <= i < |slots| ==> IsFree(slots[i])
  {
    if |slots| > 0 {
      var init := slots[..|slots| - 1];
      ListingEmpty(init);
      assert forall i :: 0 <= i < |init| ==> init[i] == slots[i];
    }
  }

  /** A table with a single occupied slot lists that slot alone. */
  lemma {:induction false} ListingSingle(slots: seq<DirEntry>, j: int)
    requires 0 <= j < |slots| && !IsFree(slots[j])
    requires forall i :: 0 <= i < |slots| && i != j ==> IsFree(slots[i])
    ensures Listing(slots) == [(slots[j].fileName, slots[j].size)]
  {
    var n := |slots|;
    var init := slots[..n - 1];
    assert forall i :: 0 <= i < |init| ==> init[i] == slots[i];
    if j == n - 1 {
      ListingEmpty(init);
    } else {
      ListingSingle(init, j);
    }
  }

  // ---------------------------------------------------------------------
  // Payload assembly

  /** Each non-empty line adds itself and a newline to the end of the payload. */
  lemma {:induction false} PayloadAppendsLine(pre: seq<string>, line: string)
    requires forall i :: 0 <= i < |pre| ==> pre[i] != []
    requires line != []
    ensures Payload(pre + [line]) == Payload(pre) + line + "\n"
  {
    if |pre| == 0 {
      assert Payload([line][1..]) == [];
    } else {
      assert (pre + [line])[1..] == pre[1..] + [line];
      PayloadAppendsLine(pre[1..], line);
    }
  }

  /** Input after the first empty line does not reach the payload. */
  lemma {:induction false} PayloadStopsAtEmptyLine(pre: seq<string>, rest: seq<string>)
    requires forall i :: 0 <= i < |pre| ==> pre[i] != []
    ensures Payload(pre + [[]] + rest) == Payload(pre)
  {
    if |pre| > 0 {
      assert (pre + [[]] + rest)[1..] == pre[1..] + [[]] + rest;
      PayloadStopsAtEmptyLine(pre[1..], rest);
    }
  }

  // ---------------------------------------------------------------------
  // The allocation loop

  /** Every FAT entry that was in use in `fat0` still holds its value. */
  ghost predicate Frozen(cfg: Config, fat0: seq<int>, fat: seq<int>)
    requires |fat0| == |fat|
  {
    forall k :: 0 <= k < |fat0| && fat0[k] != cfg.fatFree ==> fat[k] == fat0[k]
  }

  /** Every block whose contents changed was free in `fat0`. */
  ghost predicate WrittenOnlyFree(cfg: Config, fat0: seq<int>, disk0: map<int, Block>, disk: map<int, Block>) {
    forall k :: !SameBlock(disk0, disk, k) ==> 0 <= k < |fat0| && fat0[k] == cfg.fatFree
  }

  /**
   * The allocation loop changes only FAT entries and blocks that were free when
   * it started, even though it can hand out the same block twice.
   */
  lemma {:induction false} AllocTouchesOnlyFree(cfg: Config, data: string, fat0: seq<int>, disk0: map<int, Block>,
                                               fat: seq<int>, disk: map<int, Block>, pos: int, prev: int, first: int)
    requires cfg.Valid() && |fat0| == cfg.FatEntries() && |fat| == |fat0|
    requires 0 <= pos < |data|
    requires prev == -1 || (0 <= prev < |fat| && fat0[prev] == cfg.fatFree)
    requires Frozen(cfg, fat0, fat) && WrittenOnlyFree(cfg, fat0, disk0, disk)
    ensures var a := AllocFrom(cfg, data, fat, disk, pos, prev, first);
      Frozen(cfg, fat0, a.fat) && WrittenOnlyFree(cfg, fat0, disk0, a.disk)
    decreases |data| - pos
  {
    var block := FirstFree(fat, cfg.fatFree);
    if block != -1 {
      assert fat0[block] == cfg.fatFree;
      var first' := if first == cfg.fatEof then block else first;
      var fat' := if prev != -1 then fat[prev := block] else fat;
      var chunk := Min(cfg.blockSize, |data| - pos);
      var disk' := disk[block := Bytes(Pad(cfg, data[pos..pos + chunk]))];
      assert WrittenOnlyFree(cfg, fat0, disk0, disk') by {
        forall k | !SameBlock(disk0, disk', k)
          ensures 0 <= k < |fat0| && fat0[k] == cfg.fatFree
        {
          if k != block {
            assert !SameBlock(disk0, disk, k);
          }
        }
      }
      if pos + chunk < |data| {
        AllocTouchesOnlyFree(cfg, data, fat0, disk0, fat', disk', pos + chunk, block, first');
      }
    }
  }

  /** Once the chain has a head, the loop keeps it. */
  lemma {:induction false} AllocKeepsHead(cfg: Config, data: string, fat: seq<int>, disk: map<int, Block>,
                                          pos: int, prev: int, first: int)
    requires cfg.Valid() && |fat| == cfg.FatEntries()
    requires 0 <= pos < |data|
    requires prev == -1 || 0 <= prev < |fat|
    requires first != cfg.fatEof
    ensures var a := AllocFrom(cfg, data, fat, disk, pos, prev, first);
      a.Allocated? ==> a.first == first
    decreases |data| - pos
  {
    var block := FirstFree(fat, cfg.fatFree);
    if block != -1 {
      var fat' := if prev != -1 then fat[prev := block] else fat;
      var chunk := Min(cfg.blockSize, |data| - pos);
      var disk' := disk[block := Bytes(Pad(cfg, data[pos..pos + chunk]))];
      if pos + chunk < |data| {
        AllocKeepsHead(cfg, data, fat', disk', pos + chunk, block, first);
      }
    }
  }

  /** A created chain starts at the block that was the lowest free one. */
  lemma AllocHeadIsFirstFree(cfg: Config, data: string, fat: seq<int>, disk: map<int, Block>)
    requires cfg.Valid() && |fat| == cfg.FatEntries() && |data| > 0
    ensures var a := AllocFrom(cfg, data, fat, disk, 0, -1, cfg.fatEof);
      a.Allocated? ==> a.first == FirstFree(fat, cfg.fatFree)
  {
    var block := FirstFree(fat, cfg.fatFree);
    if block != -1 {
      var chunk := Min(cfg.blockSize, |data|);
      var disk' := disk[block := Bytes(Pad(cfg, data[0..chunk]))];
      if chunk < |data| {
        AllocKeepsHead(cfg, data, fat, disk', chunk, block, block);
      }
    }
  }

  /** With no free block the loop stops at once and changes nothing. */
  lemma NoFreeBlockAllocatesNothing(cfg: Config, data: string, fat: seq<int>, disk: map<int, Block>)
    requires cfg.Valid() && |fat| == cfg.FatEntries() && |data| > 0
    requires FirstFree(fat, cfg.fatFree) == -1
    ensures AllocFrom(cfg, data, fat, disk, 0, -1, cfg.fatEof) == OutOfBlocks(fat, disk)
  {
  }

  /** A payload of at most one block goes, padded, into the lowest free block, which becomes end-of-chain. */
  lemma OneBlockAlloc(cfg: Config, data: string, fat: seq<int>, disk: map<int, Block>)
    requires cfg.Valid() && |fat| == cfg.FatEntries()
    requires 0 < |data| <= cfg.blockSize
    requires FirstFree(fat, cfg.fatFree) != -1
    ensures var b := FirstFree(fat, cfg.fatFree);
      AllocFrom(cfg, data, fat, disk, 0, -1, cfg.fatEof)
        == Allocated(fat[b := cfg.fatEof], disk[b := Bytes(Pad(cfg, data))], b)
  {
    assert data[0..|data|] == data;
  }

  /**
   * A payload of more than one and at most two blocks: the second iteration is
   * handed the same block again, so its chunk overwrites the first one and the
   * chain is that single block.
   */
  lemma TwoBlockAllocReusesBlock(cfg: Config, data: string, fat: seq<int>, disk: map<int, Block>)
    requires cfg.Valid() && |fat| == cfg.FatEntries()
    requires cfg.blockSize < |data| <= 2 * cfg.blockSize
    requires FirstFree(fat, cfg.fatFree) != -1
    ensures var b := FirstFree(fat, cfg.fatFree);
      AllocFrom(cfg, data, fat, disk, 0, -1, cfg.fatEof)
        == Allocated(fat[b := cfg.fatEof], disk[b := Bytes(Pad(cfg, data[cfg.blockSize..]))], b)
  {
    var b := FirstFree(fat, cfg.fatFree);
    var bs := cfg.blockSize;
    var disk1 := disk[b := Bytes(Pad(cfg, data[0..bs]))];
    var disk2 := disk1[b := Bytes(Pad(cfg, data[bs..]))];
    assert AllocFrom(cfg, data, fat, disk, 0, -1, cfg.fatEof) == AllocFrom(cfg, data, fat, disk1, bs, b, b);
    assert data[bs..bs + (|data| - bs)] == data[bs..];
    assert AllocFrom(cfg, data, fat, disk1, bs, b, b) == AllocFrom(cfg, data, fat[b := b], disk2, |data|, b, b);
    assert disk1[b := Bytes(Pad(cfg, data[bs..]))] == disk[b := Bytes(Pad(cfg, data[bs..]))];
    assert fat[b := b][b := cfg.fatEof] == fat[b := cfg.fatEof];
  }

  // ---------------------------------------------------------------------
  // create

  /** An existing name makes `create` return -1 before anything is read or written. */
  lemma CreateExistingName(cfg: Config, fat: seq<int>, disk: map<int, Block>, dir: int, name: string, lines: seq<string>)
    requires cfg.Valid() && |fat| == cfg.FatEntries()
    requires FirstNamed(DirTable(cfg, disk, dir), name) != -1
    ensures CreateSpec(cfg, fat, disk, dir, name, lines) == Outcome(-1, fat, disk)
  {
  }

  /**
   * `create` never gives a reserved block away, and on failure the
   * directory block is left alone: on -2 the saved FAT too, on -3 the saved FAT
   * is the one holding the new chain.
   */
  lemma CreateKeepsReserved(cfg: Config, fat: seq<int>, disk: map<int, Block>, dir: int, name: string, lines: seq<string>)
    requires cfg.Valid() && |fat| == cfg.FatEntries() && Mounted(cfg, fat, dir)
    ensures var out := CreateSpec(cfg, fat, disk, dir, name, lines);
      && Mounted(cfg, out.fat, dir)
      && (out.code == 0 || out.code == -1 || out.code == -2 || out.code == -3)
      && (out.code != 0 ==> SameBlock(disk, out.disk, dir))
      && (out.code == -1 || out.code == -2 ==> SameBlock(disk, out.disk, cfg.fatBlock))
      && (out.code == -3 ==> FatTable(cfg, out.disk) == out.fat)
  {
    var slots := DirTable(cfg, disk, dir);
    var data := Payload(lines);
    if FirstNamed(slots, name) == -1 && |data| > 0 {
      AllocTouchesOnlyFree(cfg, data, fat, disk, fat, disk, 0, -1, cfg.fatEof);
      var a := AllocFrom(cfg, data, fat, disk, 0, -1, cfg.fatEof);
      assert SameBlock(disk, a.disk, dir) && SameBlock(disk, a.disk, cfg.fatBlock);
    }
  }

  /**
   * An empty payload allocates nothing: the FAT is unchanged and saved as it
   * is, no other block than the FAT block and the directory changes, and the
   * result is -3 exactly when the directory is full.
   */
  lemma CreateEmptyFile(cfg: Config, fat: seq<int>, disk: map<int, Block>, dir: int, name: string, lines: seq<string>)
    requires cfg.Valid() && |fat| == cfg.FatEntries()
    requires Payload(lines) == [] && FirstNamed(DirTable(cfg, disk, dir), name) == -1
    ensures var out := CreateSpec(cfg, fat, disk, dir, name, lines);
      && out.fat == fat
      && (forall k :: k != dir && k != cfg.fatBlock ==> SameBlock(disk, out.disk, k))
      && (dir != cfg.fatBlock || out.code == -3 ==> FatTable(cfg, out.disk) == fat)
      && (out.code == -3 <==> FirstFreeSlot(DirTable(cfg, disk, dir)) == -1)
      && (out.code == 0 <==> FirstFreeSlot(DirTable(cfg, disk, dir)) != -1)
  {
  }

  /**
   * Once the payload is written, `create` returns -3 exactly when the
   * directory has no free slot and 0 otherwise, with the FAT the allocation
   * left in memory.
   */
  lemma CreateDirectoryFull(cfg: Config, fat: seq<int>, disk: map<int, Block>, dir: int, name: string, lines: seq<string>)
    requires cfg.Valid() && |fat| == cfg.FatEntries()
    requires FirstNamed(DirTable(cfg, disk, dir), name) == -1
    requires AllocPayload(cfg, Payload(lines), fat, disk).Allocated?
    ensures var out := CreateSpec(cfg, fat, disk, dir, name, lines);
      && out.fat == AllocPayload(cfg, Payload(lines), fat, disk).fat
      && (out.code == -3 <==> FirstFreeSlot(DirTable(cfg, disk, dir)) == -1)
      && (out.code == 0 <==> FirstFreeSlot(DirTable(cfg, disk, dir)) != -1)
  {
  }

  /**
   * A successful `create` fills the lowest free slot with the truncated name,
   * the payload's length, the chain head (end-of-chain for an empty payload,
   * else the lowest free block), TYPE_FILE and READ|WRITE; every other slot
   * is unchanged.
   */
  lemma CreateFillsLowestFreeSlot(cfg: Config, fat: seq<int>, disk: map<int, Block>, dir: int, name: string, lines: seq<string>)
    requires cfg.Valid() && |fat| == cfg.FatEntries()
    requires CreateSpec(cfg, fat, disk, dir, name, lines).code == 0
    ensures var slots := DirTable(cfg, disk, dir);
      var out := CreateSpec(cfg, fat, disk, dir, name, lines);
      var data := Payload(lines);
      var slot := FirstFreeSlot(slots);
      && FirstNamed(slots, name) == -1
      && 0 <= slot
      && DirTable(cfg, out.disk, dir) == slots[slot := DirEntry(
           StoredName(cfg, name), |data|,
           if |data| == 0 then cfg.fatEof else FirstFree(fat, cfg.fatFree),
           cfg.typeFile, cfg.readRight | cfg.writeRight)]
  {
    var data := Payload(lines);
    if |data| > 0 {
      AllocHeadIsFirstFree(cfg, data, fat, disk);
    }
  }

  /**
   * For a payload of one to BLOCK_SIZE bytes, `create` fails with -2 exactly
   * when no block is free, and then changes nothing; otherwise it stores the
   * padded payload in the lowest free block (never a reserved one), marks that
   * block end-of-chain, and returns 0 exactly when a slot is free.
   */
  lemma CreateSmallFile(cfg: Config, fat: seq<int>, disk: map<int, Block>, dir: int, name: string, lines: seq<string>)
    requires cfg.Valid() && |fat| == cfg.FatEntries() && Mounted(cfg, fat, dir)
    requires FirstNamed(DirTable(cfg, disk, dir), name) == -1
    requires 0 < |Payload(lines)| <= cfg.blockSize
    ensures var out := CreateSpec(cfg, fat, disk, dir, name, lines);
      var b := FirstFree(fat, cfg.fatFree);
      && (out.code == -2 <==> b == -1)
      && (b == -1 ==> out == Outcome(-2, fat, disk))
      && (b != -1 ==>
            && b != cfg.rootBlock && b != cfg.fatBlock
            && out.fat == fat[b := cfg.fatEof]
            && DataAt(cfg, out.disk, b) == Pad(cfg, Payload(lines))
            && FatTable(cfg, out.disk) == out.fat
            && (out.code == 0 <==> FirstFreeSlot(DirTable(cfg, disk, dir)) != -1))
  {
    var data := Payload(lines);
    var b := FirstFree(fat, cfg.fatFree);
    if b != -1 {
      OneBlockAlloc(cfg, data, fat, disk);
      assert AllocPayload(cfg, data, fat, disk)
        == Allocated(fat[b := cfg.fatEof], disk[b := Bytes(Pad(cfg, data))], b);
      var out := CreateSpec(cfg, fat, disk, dir, name, lines);
      assert out.disk[b] == Bytes(Pad(cfg, data));
      assert out.disk[cfg.fatBlock] == FatImage(out.fat);
    } else {
      NoFreeBlockAllocatesNothing(cfg, data, fat, disk);
      assert AllocPayload(cfg, data, fat, disk) == OutOfBlocks(fat, disk);
    }
  }

  /** A name nobody can store: the empty name matches a free slot, so it can never be created. */
  lemma CreateEmptyNameFails(cfg: Config, fat: seq<int>, disk: map<int, Block>, dir: int, lines: seq<string>)
    requires cfg.Valid() && |fat| == cfg.FatEntries()
    ensures CreateSpec(cfg, fat, disk, dir, [], lines).code != 0
  {
    EmptyNameFindsFreeSlot(DirTable(cfg, disk, dir));
  }

  /**
   * A name longer than `file_name` can hold is stored truncated, so right after
   * it is created a lookup by the same name still fails: `cat` answers -1 and a
   * second `create` passes the duplicate check.
   */
  lemma LongNameNotFoundAfterCreate(cfg: Config, fat: seq<int>, disk: map<int, Block>, dir: int, name: string, lines: seq<string>)
    requires cfg.Valid() && |fat| == cfg.FatEntries()
    requires |name| > cfg.nameSize - 1
    requires CreateSpec(cfg, fat, disk, dir, name, lines).code == 0
    ensures var out := CreateSpec(cfg, fat, disk, dir, name, lines);
      && FirstNamed(DirTable(cfg, out.disk, dir), name) == -1
      && CatSpec(cfg, out.fat, out.disk, dir, name).code == -1
  {
    CreateFillsLowestFreeSlot(cfg, fat, disk, dir, name, lines);
    var out := CreateSpec(cfg, fat, disk, dir, name, lines);
    var slots := DirTable(cfg, disk, dir);
    var table := DirTable(cfg, out.disk, dir);
    forall i | 0 <= i < |table|
      ensures table[i].fileName != name
    {
      if i != FirstFreeSlot(slots) {
        assert table[i] == slots[i];
      }
    }
  }

  // ---------------------------------------------------------------------
  // cat

  /** The chain from `block` has a block for every BLOCK_SIZE bytes still to read. */
  ghost predicate Covers(cfg: Config, fat: seq<int>, block: int, remaining: int)
    requires cfg.Valid() && |fat| == cfg.FatEntries()
    decreases remaining
  {
    remaining <= 0 ||
      (block != cfg.fatEof && cfg.IsBlock(block)
       && Covers(cfg, fat, fat[block], remaining - Min(cfg.blockSize, remaining)))
  }

  /**
   * On a chain that covers the recorded size, `cat` prints exactly that many
   * bytes; otherwise it prints fewer.
   */
  lemma {:induction false} WalkLength(cfg: Config, fat: seq<int>, disk: map<int, Block>, block: int, remaining: int)
    requires cfg.Valid() && |fat| == cfg.FatEntries() && remaining >= 0
    ensures |Walk(cfg, fat, disk, block, remaining)| == remaining <==> Covers(cfg, fat, block, remaining)
    decreases remaining
  {
    if remaining > 0 && block != cfg.fatEof && cfg.IsBlock(block) {
      WalkLength(cfg, fat, disk, fat[block], remaining - Min(cfg.blockSize, remaining));
    }
  }

  /** `cat` returns -1 for an unknown name, -2 for an entry that is not a file, and prints nothing then. */
  lemma CatErrors(cfg: Config, fat: seq<int>, disk: map<int, Block>, dir: int, name: string)
    requires cfg.Valid() && |fat| == cfg.FatEntries()
    ensures var slots := DirTable(cfg, disk, dir);
      var out := CatSpec(cfg, fat, disk, dir, name);
      && (out.code == -1 <==> forall i :: 0 <= i < |slots| ==> slots[i].fileName != name)
      && (out.code == -2 <==> exists i :: 0 <= i < |slots| && slots[i].fileName == name
                                && slots[i].entryType != cfg.typeFile
                                && forall j :: 0 <= j < i ==> slots[j].fileName != name)
      && (out.code != 0 ==> out.text == [])
  {
    var slots := DirTable(cfg, disk, dir);
    var idx := FirstNamed(slots, name);
    if idx != -1 {
      forall i | 0 <= i < |slots| && slots[i].fileName == name && forall j :: 0 <= j < i ==> slots[j].fileName != name
        ensures i == idx
      {
      }
    }
  }

  /** A name looked up right after it was stored in a slot, where it was absent before, finds that slot. */
  lemma CatOfNewEntry(cfg: Config, fat: seq<int>, disk: map<int, Block>, dir: int,
                      slots: seq<DirEntry>, slot: int, name: string, size: int, first: int)
    requires cfg.Valid() && |fat| == cfg.FatEntries()
    requires |slots| == cfg.dirSlots && 0 <= slot < |slots|
    requires FirstNamed(slots, name) == -1 && Storable(cfg, name)
    requires DirTable(cfg, disk, dir) == slots[slot := NewEntry(cfg, name, size, first)]
    ensures CatSpec(cfg, fat, disk, dir, name) == Output(0, Walk(cfg, fat, disk, first, size))
  {
    var table := DirTable(cfg, disk, dir);
    assert table[slot].fileName == name;
    assert forall i :: 0 <= i < slot ==> table[i] == slots[i];
    assert FirstNamed(table, name) == slot;
  }

  /** A chain of one block marked end-of-chain reads back the payload padded into it. */
  lemma WalkOneBlock(cfg: Config, fat: seq<int>, disk: map<int, Block>, b: int, data: string)
    requires cfg.Valid() && |fat| == cfg.FatEntries()
    requires cfg.IsBlock(b) && fat[b] == cfg.fatEof
    requires 0 < |data| <= cfg.blockSize && DataAt(cfg, disk, b) == Pad(cfg, data)
    ensures Walk(cfg, fat, disk, b, |data|) == data
  {
    assert Pad(cfg, data)[..|data|] == data;
    assert Walk(cfg, fat, disk, b, |data|) == data + Walk(cfg, fat, disk, cfg.fatEof, 0);
  }

  /** A file of at most one block, just entered in a slot with its chain written, reads back whole. */
  lemma CatOfNewFile(cfg: Config, fat: seq<int>, disk: map<int, Block>, dir: int,
                     slots: seq<DirEntry>, slot: int, name: string, data: string, first: int)
    requires cfg.Valid() && |fat| == cfg.FatEntries()
    requires |slots| == cfg.dirSlots && 0 <= slot < |slots|
    requires FirstNamed(slots, name) == -1 && Storable(cfg, name)
    requires DirTable(cfg, disk, dir) == slots[slot := DirEntry(
               StoredName(cfg, name), |data|, first, cfg.typeFile, cfg.readRight | cfg.writeRight)]
    requires |data| <= cfg.blockSize
    requires |data| > 0 ==> 0 <= first < |fat| && fat[first] == cfg.fatEof && DataAt(cfg, disk, first) == Pad(cfg, data)
    ensures CatSpec(cfg, fat, disk, dir, name) == Output(0, data)
  {
    CatOfNewEntry(cfg, fat, disk, dir, slots, slot, name, |data|, first);
    if |data| > 0 {
      WalkOneBlock(cfg, fat, disk, first, data);
    }
  }

  /** `cat` right after `create` prints the payload, for payloads of at most BLOCK_SIZE bytes. */
  lemma CreateThenCat(cfg: Config, fat: seq<int>, disk: map<int, Block>, dir: int, name: string, lines: seq<string>)
    requires cfg.Valid() && |fat| == cfg.FatEntries() && Mounted(cfg, fat, dir)
    requires Storable(cfg, name)
    requires |Payload(lines)| <= cfg.blockSize
    requires CreateSpec(cfg, fat, disk, dir, name, lines).code == 0
    ensures var out := CreateSpec(cfg, fat, disk, dir, name, lines);
      CatSpec(cfg, out.fat, out.disk, dir, name) == Output(0, Payload(lines))
  {
    var data := Payload(lines);
    var out := CreateSpec(cfg, fat, disk, dir, name, lines);
    var slots := DirTable(cfg, disk, dir);
    var first := if |data| == 0 then cfg.fatEof else FirstFree(fat, cfg.fatFree);
    CreateFillsLowestFreeSlot(cfg, fat, disk, dir, name, lines);
    if |data| > 0 {
      CreateSmallFile(cfg, fat, disk, dir, name, lines);
    }
    CatOfNewFile(cfg, out.fat, out.disk, dir, slots, FirstFreeSlot(slots), name, data, first);
  }

  /**
   * A file of more than one and at most two blocks entered in a slot whose
   * chain is the single end-of-chain block `b` holding its second chunk: `cat`
   * prints BLOCK_SIZE bytes of that block, which is not the file.
   */
  lemma CatOfReusedBlock(cfg: Config, fat: seq<int>, disk: map<int, Block>, dir: int,
                         slots: seq<DirEntry>, slot: int, name: string, data: string, b: int)
    requires cfg.Valid() && |fat| == cfg.FatEntries()
    requires |slots| == cfg.dirSlots && 0 <= slot < |slots|
    requires FirstNamed(slots, name) == -1 && Storable(cfg, name)
    requires DirTable(cfg, disk, dir) == slots[slot := DirEntry(
               StoredName(cfg, name), |data|, b, cfg.typeFile, cfg.readRight | cfg.writeRight)]
    requires cfg.blockSize < |data| <= 2 * cfg.blockSize
    requires 0 <= b < |fat| && fat[b] == cfg.fatEof && DataAt(cfg, disk, b) == Pad(cfg, data[cfg.blockSize..])
    ensures CatSpec(cfg, fat, disk, dir, name) == Output(0, Pad(cfg, data[cfg.blockSize..]))
    ensures CatSpec(cfg, fat, disk, dir, name) != Output(0, data)
  {
    CatOfNewEntry(cfg, fat, disk, dir, slots, slot, name, |data|, b);
    var chunk := Pad(cfg, data[cfg.blockSize..]);
    assert chunk[..cfg.blockSize] == chunk;
    assert Walk(cfg, fat, disk, b, |data|) == chunk + Walk(cfg, fat, disk, cfg.fatEof, |data| - cfg.blockSize);
  }

  /**
   * The reuse of a not-yet-linked block loses data: for a payload of more than
   * one and at most two blocks, only the second chunk is stored, in the lowest
   * free block, which is marked end-of-chain; `cat` then prints BLOCK_SIZE bytes
   * of that chunk (zero padded), which is not the payload.
   */
  lemma CreateLargeFileLosesData(cfg: Config, fat: seq<int>, disk: map<int, Block>, dir: int, name: string, lines: seq<string>)
    requires cfg.Valid() && |fat| == cfg.FatEntries() && Mounted(cfg, fat, dir)
    requires FirstNamed(DirTable(cfg, disk, dir), name) == -1
    requires cfg.blockSize < |Payload(lines)| <= 2 * cfg.blockSize
    requires FirstFree(fat, cfg.fatFree) != -1
    ensures var out := CreateSpec(cfg, fat, disk, dir, name, lines);
      var data := Payload(lines);
      var b := FirstFree(fat, cfg.fatFree);
      && out.code != -2
      && out.fat == fat[b := cfg.fatEof]
      && DataAt(cfg, out.disk, b) == Pad(cfg, data[cfg.blockSize..])
      && (out.code == 0 && Storable(cfg, name) ==>
            CatSpec(cfg, out.fat, out.disk, dir, name) == Output(0, Pad(cfg, data[cfg.blockSize..]))
            && CatSpec(cfg, out.fat, out.disk, dir, name) != Output(0, data))
  {
    var data := Payload(lines);
    var out := CreateSpec(cfg, fat, disk, dir, name, lines);
    var b := FirstFree(fat, cfg.fatFree);
    TwoBlockAllocReusesBlock(cfg, data, fat, disk);
    assert AllocPayload(cfg, data, fat, disk)
      == Allocated(fat[b := cfg.fatEof], disk[b := Bytes(Pad(cfg, data[cfg.blockSize..]))], b);
    assert out.disk[b] == Bytes(Pad(cfg, data[cfg.blockSize..]));
    if out.code == 0 && Storable(cfg, name) {
      var slots := DirTable(cfg, disk, dir);
      CreateFillsLowestFreeSlot(cfg, fat, disk, dir, name, lines);
      CatOfReusedBlock(cfg, out.fat, out.disk, dir, slots, FirstFreeSlot(slots), name, data, b);
    }
  }

  /** On a formatted disk with a data block and a directory slot, creating a short file succeeds. */
  lemma FormattedCreateSucceeds(cfg: Config, disk: map<int, Block>, name: string, lines: seq<string>)
    requires cfg.Valid() && cfg.FatEntries() > 2 && cfg.dirSlots >= 1
    requires name != []
    requires |Payload(lines)| <= cfg.blockSize
    ensures CreateSpec(cfg, FormattedFat(cfg), FormatDisk(cfg, disk), cfg.rootBlock, name, lines).code == 0
  {
    var fat := FormattedFat(cfg);
    var disk1 := FormatDisk(cfg, disk);
    var slots := DirTable(cfg, disk1, cfg.rootBlock);
    assert slots == EmptyTable(cfg);
    FormattedFirstFree(cfg);
    assert FirstNamed(slots, name) == -1;
    assert FirstFreeSlot(slots) == 0;
    if |Payload(lines)| > 0 {
      CreateSmallFile(cfg, fat, disk1, cfg.rootBlock, name, lines);
    }
  }

  /**
   * The scenario format; create; ls; cat: on a formatted disk with a data block
   * and a directory slot, creating a short file succeeds, `ls` lists just it
   * with its size, and `cat` prints its payload.
   */
  lemma FormatCreateLsCat(cfg: Config, disk: map<int, Block>, name: string, lines: seq<string>)
    requires cfg.Valid() && cfg.FatEntries() > 2 && cfg.dirSlots >= 1
    requires Storable(cfg, name) && name != []
    requires |Payload(lines)| <= cfg.blockSize
    ensures var out := CreateSpec(cfg, FormattedFat(cfg), FormatDisk(cfg, disk), cfg.rootBlock, name, lines);
      && out.code == 0
      && Listing(DirTable(cfg, out.disk, cfg.rootBlock)) == [(name, |Payload(lines)|)]
      && CatSpec(cfg, out.fat, out.disk, cfg.rootBlock, name) == Output(0, Payload(lines))
  {
    var fat := FormattedFat(cfg);
    var disk1 := FormatDisk(cfg, disk);
    var dir := cfg.rootBlock;
    FormattedFirstFree(cfg);
    FormattedCreateSucceeds(cfg, disk, name, lines);
    CreateFillsLowestFreeSlot(cfg, fat, disk1, dir, name, lines);
    var out := CreateSpec(cfg, fat, disk1, dir, name, lines);
    var table := DirTable(cfg, out.disk, dir);
    assert DirTable(cfg, disk1, dir) == EmptyTable(cfg);
    assert FirstFreeSlot(EmptyTable(cfg)) == 0;
    ListingSingle(table, 0);
    CreateThenCat(cfg, fat, disk1, dir, name, lines);
  }
}
