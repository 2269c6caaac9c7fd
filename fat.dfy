/**
 * The File Allocation Table as a value: the first-fit search over it, the
 * table `format` produces, and the on-disk image `format` leaves behind.
 */
module Fat {
  import opened Layout

  /**
   * First fit: the lowest index whose entry is `free`, or -1 when there is none.
   * This is the search `find_free_block` performs.
   */
  function FirstFree(fat: seq<int>, free: int): (r: int)
    ensures -1 <= r < |fat|
    ensures r == -1 <==> forall i :: 0 <= i < |fat| ==> fat[i] != free
    ensures r >= 0 ==> fat[r] == free && forall i :: 0 <= i < r ==> fat[i] != free
  {
    if |fat| == 0 then -1
    else if fat[0] == free then 0
    else
      var r := FirstFree(fat[1..], free);
      if r == -1 then -1 else r + 1
  }

  /** Neither reserved block can be handed out: their FAT entries are not free. */
  predicate ReservedInUse(cfg: Config, fat: seq<int>)
    requires cfg.Valid() && |fat| == cfg.FatEntries()
  {
    fat[cfg.rootBlock] != cfg.fatFree && fat[cfg.fatBlock] != cfg.fatFree
  }

  /** The table `format` leaves in memory. */
  function FormattedFat(cfg: Config): (fat: seq<int>)
    requires cfg.Valid()
    ensures |fat| == cfg.FatEntries()
    ensures fat[cfg.rootBlock] == cfg.fatEof && fat[cfg.fatBlock] == cfg.fatEof
    ensures forall i :: 0 <= i < |fat| && i != cfg.rootBlock && i != cfg.fatBlock ==> fat[i] == cfg.fatFree
  {
    seq(cfg.FatEntries(), i => if i == cfg.rootBlock || i == cfg.fatBlock then cfg.fatEof else cfg.fatFree)
  }
}
