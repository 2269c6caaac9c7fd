/**
 * The flat directory table as a value: the two first-match searches, the
 * listing `ls` prints, and the entry `create` fills in.
 */
module Directory {
  import opened Layout

  /** The lowest free slot, or -1 when every slot is taken (`find_free_dir_entry`). */
  function FirstFreeSlot(slots: seq<DirEntry>): (r: int)
    ensures -1 <= r < |slots|
    ensures r == -1 <==> forall i :: 0 <= i < |slots| ==> !IsFree(slots[i])
    ensures r >= 0 ==> IsFree(slots[r]) && forall i :: 0 <= i < r ==> !IsFree(slots[i])
  {
    if |slots| == 0 then -1
    else if IsFree(slots[0]) then 0
    else
      var r := FirstFreeSlot(slots[1..]);
      if r == -1 then -1 else r + 1
  }

  /**
   * The lowest slot whose stored name equals `name` exactly, or -1
   * (`find_dir_entry_index`). Free slots are not skipped, so the empty name
   * matches the first free slot.
   */
  function FirstNamed(slots: seq<DirEntry>, name: string): (r: int)
    ensures -1 <= r < |slots|
    ensures r == -1 <==> forall i :: 0 <= i < |slots| ==> slots[i].fileName != name
    ensures r >= 0 ==> slots[r].fileName == name && forall i :: 0 <= i < r ==> slots[i].fileName != name
  {
    if |slots| == 0 then -1
    else if slots[0].fileName == name then 0
    else
      var r := FirstNamed(slots[1..], name);
      if r == -1 then -1 else r + 1
  }

  /** What `ls` prints for one slot: nothing for a free slot, else its name and size. */
  function Line(e: DirEntry): seq<(string, int)> {
    if IsFree(e) then [] else [(e.fileName, e.size)]
  }

  /** The lines `ls` prints for a table, in slot order. */
  function Listing(slots: seq<DirEntry>): (lines: seq<(string, int)>)
    ensures |lines| <= |slots|
  {
    if |slots| == 0 then [] else Listing(slots[..|slots| - 1]) + Line(slots[|slots| - 1])
  }

  /** The prefix of `s` before its first NUL: what `c_str()` means to a C string function. */
  function CString(s: string): (c: string)
    ensures |c| <= |s| && c == s[..|c|]
    ensures forall i :: 0 <= i < |c| ==> c[i] != '\0'
    ensures |c| == |s| || s[|c|] == '\0'
  {
    if |s| == 0 || s[0] == '\0' then [] else [s[0]] + CString(s[1..])
  }

  /** A name that survives `strncpy` unchanged, so that later lookups by it succeed. */
  predicate Storable(cfg: Config, s: string)
    requires cfg.Valid()
  {
    |s| <= cfg.nameSize - 1 && forall i :: 0 <= i < |s| ==> s[i] != '\0'
  }

  /** The name `strncpy` leaves in a zeroed `file_name` of `cfg.nameSize` characters. */
  function StoredName(cfg: Config, s: string): (name: string)
    requires cfg.Valid()
    ensures |name| == Min(|CString(s)|, cfg.nameSize - 1) && name == s[..|name|]
    ensures forall i :: 0 <= i < |name| ==> name[i] != '\0'
    ensures Storable(cfg, s) ==> name == s
  {
    var c := CString(s);
    if |c| <= cfg.nameSize - 1 then c else c[..cfg.nameSize - 1]
  }

  /**
   * The slot `create` fills in for a new file. It stays free when nothing of
   * the name survives `strncpy`.
   */
  function NewEntry(cfg: Config, path: string, size: int, first: int): (e: DirEntry)
    requires cfg.Valid()
    ensures IsFree(e) <==> CString(path) == [] || cfg.nameSize == 1
  {
    DirEntry(StoredName(cfg, path), size, first, cfg.typeFile, cfg.readRight | cfg.writeRight)
  }

  /** The zeroed table `format` writes. */
  function EmptyTable(cfg: Config): (slots: seq<DirEntry>)
    requires cfg.Valid()
    ensures |slots| == cfg.dirSlots && forall i :: 0 <= i < |slots| ==> IsFree(slots[i])
  {
    seq(cfg.dirSlots, _ => ZERO_ENTRY)
  }
}
