/**
 * Progress translation: the write-engine and image-builder events turned into
 * a percentage and a status line.
 */
module Progress {
  import opened Arith
  import opened Text

  /** IMAPI_FORMAT2_DATA_WRITE_ACTION: what the write engine is doing. */
  datatype WriteAction =
    | ValidatingMedia | FormattingMedia | InitializingHardware | CalibratingPower
    | WritingData | Finalization | Completed | Verifying

  /** BURN_MEDIA_TASK: which phase last reported progress. */
  datatype BurnTask = FileSystemTask | WritingTask

  /** The raw fields of one IDiscFormat2DataEventArgs update. */
  datatype WriteEvent = WriteEvent(
    elapsedTime: int, remainingTime: int, totalTime: int,
    currentAction: WriteAction,
    startLba: int, sectorCount: int, lastReadLba: int, lastWrittenLba: int,
    totalSystemBuffer: int, usedSystemBuffer: int, freeSystemBuffer: int)

  /** The job's progress record shared between the worker and the window (`BurnData`). */
  datatype BurnData = BurnData(
    uniqueRecorderId: string,
    task: BurnTask,
    statusMessage: string,
    write: WriteEvent)

  /**
   * The write percentage of `StatusWriting`: `(int)((100 * written) / SectorCount)`
   * with `written = LastWrittenLba - StartLba`, and 0 unless both are positive.
   * The arithmetic is 64-bit; only the final `(int)` cast can wrap.
   */
  function WritePercent(lastWrittenLba: int, startLba: int, sectorCount: int): (p: int)
    ensures sectorCount <= 0 || lastWrittenLba <= startLba ==> p == 0
    ensures IsInt32(p)
  {
    var written := lastWrittenLba - startLba;
    if written > 0 && sectorCount > 0 then Wrap32((100 * written) / sectorCount) else 0
  }

  /**
   * While the written sectors stay within the job's sector count the
   * percentage is the rounded-down share, between 0 and 100.
   */
  lemma WritePercentIsShare(lastWrittenLba: int, startLba: int, sectorCount: int)
    requires sectorCount > 0 && startLba <= lastWrittenLba <= startLba + sectorCount
    ensures var p := WritePercent(lastWrittenLba, startLba, sectorCount);
      0 <= p <= 100 &&
      p * sectorCount <= 100 * (lastWrittenLba - startLba) < (p + 1) * sectorCount
  {
    var written := lastWrittenLba - startLba;
    var q := (100 * written) / sectorCount;
    DivMonotone(0, 100 * written, sectorCount);
    DivMonotone(100 * written, 100 * sectorCount, sectorCount);
    DivUnique(100 * sectorCount, sectorCount, 100);
    DivUnique(0, sectorCount, 0);
    DivFloor(100 * written, sectorCount);
    assert q * sectorCount == sectorCount * q;
  }

  /**
   * The percentage never goes down as LastWrittenLba advances, as long as the
   * larger share still fits the `(int)` cast.
   */
  lemma WritePercentMonotone(lw1: int, lw2: int, startLba: int, sectorCount: int)
    requires lw1 <= lw2
    requires sectorCount <= 0 || (100 * (lw2 - startLba)) / sectorCount <= MaxInt32
    ensures WritePercent(lw1, startLba, sectorCount) <= WritePercent(lw2, startLba, sectorCount)
  {
    if sectorCount > 0 && lw1 - startLba > 0 {
      DivMonotone(100 * (lw1 - startLba), 100 * (lw2 - startLba), sectorCount);
      DivMonotone(0, 100 * (lw1 - startLba), sectorCount);
    } else if sectorCount > 0 && lw2 - startLba > 0 {
      DivMonotone(0, 100 * (lw2 - startLba), sectorCount);
    }
  }

  /** Half of a 1000-sector job written from sector 0 reads 50%. */
  lemma WritePercentHalfway()
    ensures WritePercent(500, 0, 1000) == 50
  {
  }

  /** The status line of `StatusWriting`; note the zero case has no colon. */
  function WritingText(w: WriteEvent): string {
    var written := w.lastWrittenLba - w.startLba;
    if written > 0 && w.sectorCount > 0
    then "Progress: " + IntToString(WritePercent(w.lastWrittenLba, w.startLba, w.sectorCount)) + "%"
    else "Progress 0%"
  }

  /** Within the job, the writing line shows the share as plain decimal digits that read back as it. */
  lemma WritingTextShowsShare(w: WriteEvent)
    requires w.sectorCount > 0 && w.startLba < w.lastWrittenLba <= w.startLba + w.sectorCount
    ensures var p := WritePercent(w.lastWrittenLba, w.startLba, w.sectorCount);
      exists digits :: IsNumeral(digits) && DecimalValue(digits) == p &&
        WritingText(w) == "Progress: " + digits + "%"
  {
    var p := WritePercent(w.lastWrittenLba, w.startLba, w.sectorCount);
    WritePercentIsShare(w.lastWrittenLba, w.startLba, w.sectorCount);
    DecimalRoundTrip(p);
    assert IntToString(p) == NatToString(p);
  }

  /**
   * Before any sector of the job counts as written the line is `Progress 0%`,
   * which lacks the colon every share line carries.
   */
  lemma WritingTextIdle(w: WriteEvent)
    requires w.lastWrittenLba <= w.startLba || w.sectorCount <= 0
    ensures WritingText(w) == "Progress 0%"
    ensures forall digits :: WritingText(w) != "Progress: " + digits + "%"
  {
    forall digits ensures WritingText(w) != "Progress: " + digits + "%" {
      assert ("Progress: " + digits + "%")[8] == ':';
    }
  }

  /**
   * The image-build percentage of `FileSystemImage_Update`:
   * `(copiedSectors * 100) / totalSectors` on 32-bit `int`s, 0 unless both are positive.
   */
  function ImagePercent(copiedSectors: int, totalSectors: int): (p: int)
    ensures copiedSectors <= 0 || totalSectors <= 0 ==> p == 0
  {
    if copiedSectors > 0 && totalSectors > 0
    then TruncDiv(Wrap32(copiedSectors * 100), totalSectors)
    else 0
  }

  /**
   * While the product fits in an `int` and no more than the total is copied,
   * the image percentage is the rounded-down share, between 0 and 100.
   */
  lemma ImagePercentIsShare(copiedSectors: int, totalSectors: int)
    requires 0 <= copiedSectors <= totalSectors && totalSectors > 0
    requires copiedSectors * 100 <= MaxInt32
    ensures var p := ImagePercent(copiedSectors, totalSectors);
      0 <= p <= 100 && p == (copiedSectors * 100) / totalSectors
  {
    if copiedSectors > 0 {
      DivMonotone(0, copiedSectors * 100, totalSectors);
      DivMonotone(copiedSectors * 100, totalSectors * 100, totalSectors);
      DivUnique(totalSectors * 100, totalSectors, 100);
      DivUnique(0, totalSectors, 0);
    }
  }

  /** `Adding "<file name>" to image...`: the file's name, without its directory, between fixed text. */
  function ImageMessage(currentFile: string): (m: string)
    ensures |m| == |FileName(currentFile)| + 21
    ensures m[..8] == "Adding \"" && m[8..|m| - 13] == FileName(currentFile) && m[|m| - 13..] == "\" to image..."
  {
    "Adding \"" + FileName(currentFile) + "\" to image..."
  }
}
