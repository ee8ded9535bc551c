/**
 * Capacity accounting: the form's nullable free/total space figures in whole
 * megabytes, how adding, removing and media detection move them, and the
 * ledger they are meant to keep.
 */
module Capacity {
  import opened Wrappers
  import opened Arith

  const SectorSize: nat := 2048
  const BytesPerMegabyte: nat := 1048576

  /** An entry of the burn list; `sizeOnDisc` is the item's footprint in bytes. */
  datatype MediaItem = File(path: string, sizeOnDisc: nat) | Folder(path: string, sizeOnDisc: nat)

  /** `SizeOnDisc / 1048576`: whole megabytes, rounded down. */
  function Megabytes(bytes: nat): (mb: nat)
    ensures mb * BytesPerMegabyte <= bytes < (mb + 1) * BytesPerMegabyte
  {
    DivFloor(bytes, BytesPerMegabyte);
    bytes / BytesPerMegabyte
  }

  /** `(2048 * sectors) / 1048576`: a megabyte is exactly 512 sectors, rounded down. */
  function SectorsToMegabytes(sectors: nat): (mb: nat)
    ensures mb == sectors / 512
    ensures mb * 512 <= sectors < (mb + 1) * 512
  {
    var q, r := sectors / 512, sectors % 512;
    assert SectorSize * sectors == BytesPerMegabyte * q + SectorSize * r;
    assert 0 <= SectorSize * r < BytesPerMegabyte;
    SectorSize * sectors / BytesPerMegabyte
  }

  /** `freeSpaceOnDisk < 0` under C#'s lifted comparison: `null < 0` is false. */
  predicate Blocked(free: Option<int>) {
    free.Some? && free.value < 0
  }

  /**
   * Free space after adding a file: `null ? -SizeOnDisc / 1048576 : free - SizeOnDisc / 1048576`.
   * Unary minus binds first and C#'s division truncates, so unknown free space counts as zero.
   */
  function DebitFile(free: Option<int>, size: nat): (r: Option<int>)
    ensures r == Some(free.GetOr(0) - Megabytes(size))
  {
    match free
    case None => Some(TruncDiv(-(size as int), BytesPerMegabyte))
    case Some(v) => Some(v - Megabytes(size))
  }

  /**
   * Free space after adding a folder, as the source writes it:
   * `null ? SizeOnDisc / 1048576 : free - SizeOnDisc / 1048576` (no minus on the unknown branch).
   */
  function DebitFolder(free: Option<int>, size: nat): (r: Option<int>)
    ensures free.Some? ==> r == DebitFile(free, size)
    ensures free.None? ==> r == Some(Megabytes(size))
  {
    match free
    case None => Some(Megabytes(size))
    case Some(v) => Some(v - Megabytes(size))
  }

  /** Folder debit as evidently intended: the same as for a file. */
  function DebitFolderIntended(free: Option<int>, size: nat): (r: Option<int>)
    ensures r == DebitFile(free, size)
  {
    Some(free.GetOr(0) - Megabytes(size))
  }

  /** `freeSpaceOnDisk + SizeOnDisc / 1048576` under lifted `+`: unknown stays unknown. */
  function Credit(free: Option<int>, size: nat): Option<int> {
    match free
    case None => None
    case Some(v) => Some(v + Megabytes(size))
  }

  /** Removing a file right after adding it gives back the free space it had (zero if it was unknown). */
  lemma CreditUndoesFileDebit(free: Option<int>, size: nat)
    ensures Credit(DebitFile(free, size), size) == Some(free.GetOr(0))
  {
  }

  /**
   * On a known figure, removing an item gives back exactly what adding it
   * took, in either order; an unknown figure stays unknown.
   */
  lemma CreditInvertsDebit(free: Option<int>, size: nat)
    ensures free.Some? ==> Credit(DebitFile(free, size), size) == free
    ensures free.Some? ==> DebitFile(Credit(free, size), size) == free
    ensures free.None? ==> Credit(free, size) == None
  {
  }

  /** The items' footprint: the sum of their whole-megabyte sizes. */
  function Footprint(items: seq<MediaItem>): int
    decreases |items|
  {
    if |items| == 0 then 0
    else Footprint(items[..|items| - 1]) + Megabytes(items[|items| - 1].sizeOnDisc)
  }

  lemma FootprintAppend(items: seq<MediaItem>, x: MediaItem)
    ensures Footprint(items + [x]) == Footprint(items) + Megabytes(x.sizeOnDisc)
  {
    assert (items + [x])[..|items|] == items;
  }

  function RemoveAt<T>(s: seq<T>, k: nat): (r: seq<T>)
    requires k < |s|
    ensures |r| == |s| - 1
    ensures forall i :: 0 <= i < k ==> r[i] == s[i]
    ensures forall i :: k <= i < |r| ==> r[i] == s[i + 1]
  {
    s[..k] + s[k + 1..]
  }

  /** Taking out any one item lowers the footprint by exactly that item's size. */
  lemma {:induction false} FootprintRemoveAt(items: seq<MediaItem>, k: nat)
    requires k < |items|
    ensures Footprint(RemoveAt(items, k)) == Footprint(items) - Megabytes(items[k].sizeOnDisc)
  {
    var n := |items|;
    if k < n - 1 {
      var init := items[..n - 1];
      FootprintRemoveAt(init, k);
      assert RemoveAt(items, k) == RemoveAt(init, k) + [items[n - 1]];
      FootprintAppend(RemoveAt(init, k), items[n - 1]);
    } else {
      assert RemoveAt(items, k) == items[..n - 1];
    }
  }

  /**
   * The ledger the figures are meant to keep against `baseline`, the free
   * space of the media (zero while no media was read): nothing is listed
   * while free space is unknown, and once known it is `baseline` minus the
   * footprint of the listed items.
   */
  ghost predicate Ledger(free: Option<int>, items: seq<MediaItem>, baseline: int) {
    match free
    case None => items == [] && baseline == 0
    case Some(v) => v == baseline - Footprint(items)
  }

  /** Adding a file keeps the ledger, whether free space was known or not. */
  lemma LedgerAddFile(free: Option<int>, items: seq<MediaItem>, baseline: int, size: nat, path: string)
    requires Ledger(free, items, baseline)
    ensures Ledger(DebitFile(free, size), items + [File(path, size)], baseline)
  {
    FootprintAppend(items, File(path, size));
  }

  /** Adding a folder keeps the ledger when free space is known. */
  lemma LedgerAddFolder(free: Option<int>, items: seq<MediaItem>, baseline: int, size: nat, path: string)
    requires Ledger(free, items, baseline) && free.Some?
    ensures Ledger(DebitFolder(free, size), items + [Folder(path, size)], baseline)
  {
    FootprintAppend(items, Folder(path, size));
  }

  /** The intended folder debit keeps the ledger in every case, as the file debit does. */
  lemma LedgerAddFolderIntended(free: Option<int>, items: seq<MediaItem>, baseline: int, size: nat, path: string)
    requires Ledger(free, items, baseline)
    ensures Ledger(DebitFolderIntended(free, size), items + [Folder(path, size)], baseline)
  {
    FootprintAppend(items, Folder(path, size));
  }

  /**
   * As written, a folder added while free space is unknown credits its size:
   * a 1 MB folder leaves +1 MB free where a 1 MB file leaves -1 MB, and the
   * ledger no longer holds.
   */
  lemma FolderFromUnknownCredits()
    ensures DebitFolder(None, BytesPerMegabyte) == Some(1)
    ensures DebitFile(None, BytesPerMegabyte) == Some(-1)
    ensures !Ledger(DebitFolder(None, BytesPerMegabyte), [Folder("d", BytesPerMegabyte)], 0)
  {
    assert Footprint([Folder("d", BytesPerMegabyte)]) == 1 by {
      FootprintAppend([], Folder("d", BytesPerMegabyte));
    }
  }

  /** Removing the k-th item and crediting its size keeps the ledger. */
  lemma LedgerRemove(free: Option<int>, items: seq<MediaItem>, baseline: int, k: nat)
    requires Ledger(free, items, baseline) && k < |items|
    ensures Ledger(Credit(free, items[k].sizeOnDisc), RemoveAt(items, k), baseline)
  {
    FootprintRemoveAt(items, k);
  }

  /**
   * Adding is refused exactly when the listed items already need more than
   * the media's free space (never while free space is unknown).
   */
  lemma BlockedIffOverCommitted(free: Option<int>, items: seq<MediaItem>, baseline: int)
    requires Ledger(free, items, baseline)
    ensures Blocked(free) <==> Footprint(items) > baseline
  {
  }

  // ---------------------------------------------------------------------------
  // Reading the media's free space

  /**
   * Selecting a recorder, as written: the media's free megabytes are added to
   * a known figure, or become an unknown one.
   */
  function AddFreeSectors(free: Option<int>, freeSectors: nat): Option<int> {
    match free
    case None => Some(SectorsToMegabytes(freeSectors))
    case Some(v) => Some(v + SectorsToMegabytes(freeSectors))
  }

  /** Detecting media, as written: the figure becomes the media's free megabytes, whatever is listed. */
  function DetectFree(freeSectors: nat): Option<int> {
    Some(SectorsToMegabytes(freeSectors))
  }

  /** Reading the media as evidently intended: its free megabytes less what the list already takes. */
  function RefreshFree(items: seq<MediaItem>, freeSectors: nat): Option<int> {
    Some(SectorsToMegabytes(freeSectors) - Footprint(items))
  }

  /**
   * The intended reading restores the ledger against the media just read, and
   * refuses adding exactly when the list needs more than the media holds.
   */
  lemma LedgerRefresh(items: seq<MediaItem>, freeSectors: nat)
    ensures Ledger(RefreshFree(items, freeSectors), items, SectorsToMegabytes(freeSectors))
    ensures Blocked(RefreshFree(items, freeSectors)) <==> Footprint(items) > SectorsToMegabytes(freeSectors)
  {
  }

  /**
   * What the addition on selection gets right: while no media was read yet
   * (the ledger against zero), adding the media's free space to the figure is
   * the intended reading, also when items were listed before.
   */
  lemma SelectBeforeMediaRefreshes(free: Option<int>, items: seq<MediaItem>, freeSectors: nat)
    requires Ledger(free, items, 0)
    ensures AddFreeSectors(free, freeSectors) == RefreshFree(items, freeSectors)
  {
  }

  /** Detection agrees with the intended reading exactly when the listed items take no whole megabyte. */
  lemma DetectRefreshesIffNothingListed(items: seq<MediaItem>, freeSectors: nat)
    ensures DetectFree(freeSectors) == RefreshFree(items, freeSectors) <==> Footprint(items) == 0
  {
  }

  /**
   * As written, a second selection counts the media again: two recorders
   * whose media have 1024 free sectors (2 MB) each, selected one after the
   * other with nothing listed, leave 4 MB free against a total of 2 MB.
   */
  lemma ReselectDoubleCounts()
    ensures SectorsToMegabytes(1024) == 2
    ensures AddFreeSectors(AddFreeSectors(None, 1024), 1024) == Some(4)
    ensures RefreshFree([], 1024) == Some(2)
    ensures !Ledger(Some(4), [], 2)
  {
    assert Footprint([]) == 0;
  }

  /**
   * As written, detection forgets the listed items: with 2 MB media and a
   * 1 MB file listed (1 MB free), Detect Media reads 2 MB free again, and
   * removing the file then shows 3 MB free on a 2 MB disc.
   */
  lemma DetectForgetsListedItems()
    ensures var items := [File("f", BytesPerMegabyte)];
      DebitFile(Some(2), BytesPerMegabyte) == Some(1) &&
      DetectFree(1024) == Some(2) &&
      !Ledger(DetectFree(1024), items, 2) &&
      Credit(DetectFree(1024), BytesPerMegabyte) == Some(3) &&
      RefreshFree(items, 1024) == Some(1)
  {
    var items := [File("f", BytesPerMegabyte)];
    FootprintAppend([], items[0]);
    assert [] + [items[0]] == items;
  }
}
