/**
 * The burn controller of the main window: the capacity figures, the burn
 * list, the Burn/Cancel toggle, the background worker that builds the image
 * and writes it, and the handlers that turn engine events into status.
 * Native calls are parameters carrying their outcome.
 */
module BurnMedia {
  import opened Wrappers
  import opened Capacity
  import opened Progress
  import opened Text
  import opened Devices

  /** IMAPI_BURN_VERIFICATION_LEVEL. */
  datatype VerificationLevel = VerificationNone | VerificationQuick | VerificationFull

  /** The result image of the image builder: its volume name, whether earlier sessions were imported, its items. */
  datatype Image = Image(volumeName: string, importedSessions: bool, contents: seq<MediaItem>)

  /** What the worker hands to `IDiscFormat2Data.Write`. */
  datatype WriteRequest = WriteRequest(
    recorderId: string, forceMediaToBeClosed: bool, verification: VerificationLevel, image: Image)

  /**
   * The native calls of `CreateMediaFileSystem`: creating and configuring the
   * image (`setup`), importing earlier sessions, adding each listed item, and
   * creating the result image. `cancelFrom` is the first checkpoint at which
   * the worker sees a cancellation pending: checkpoint `i < |items|` comes
   * before item `i`, checkpoint `|items|` after the loop. A pending
   * cancellation stays pending, so every later checkpoint sees it too.
   */
  datatype AssemblyEnv = AssemblyEnv(
    setup: Outcome, importSessions: Outcome, addItem: seq<Outcome>, cancelFrom: nat, createImage: Outcome)

  /**
   * The native calls of the worker: creating and initialising the recorder and
   * format objects, `MediaHeuristicallyBlank`, reading the multisession
   * interfaces, the image assembly, `Write` and `EjectMedia`.
   */
  datatype WorkerEnv = WorkerEnv(
    recorderSetup: Outcome, mediaBlank: Native<bool>, sessions: Outcome,
    assembly: AssemblyEnv, write: Outcome, eject: Outcome)

  /** What the worker did: its result code, the write it issued (if any), and whether it ejected. */
  datatype WorkerOutcome = WorkerOutcome(result: int, write: Option<WriteRequest>, ejected: bool)

  const FinishedText: string := "Finished Burning Disc!"
  const ErrorText: string := "Error Burning Disc!"
  const BurnCaption: string := "&Burn"
  const CancelCaption: string := "&Cancel"

  /** The index of the first failed outcome, or the length when none failed. */
  function FirstFault(outcomes: seq<Outcome>): (k: nat)
    ensures k <= |outcomes|
    ensures forall i :: 0 <= i < k ==> outcomes[i].Done?
    ensures k < |outcomes| ==> outcomes[k].Failed?
  {
    if |outcomes| == 0 then 0
    else if outcomes[0].Failed? then 0
    else 1 + FirstFault(outcomes[1..])
  }

  function Min(a: int, b: int): int {
    if a <= b then a else b
  }

  /** The image is created and configured, and earlier sessions (if any) are imported. */
  predicate AssemblySetupOk(env: AssemblyEnv, sessions: bool) {
    env.setup.Done? && (sessions ==> env.importSessions.Done?)
  }

  /** Assembly of `n` items yields an image: set up, no cancellation seen, every item added, image created. */
  predicate AssemblySucceeds(env: AssemblyEnv, sessions: bool, n: nat) {
    AssemblySetupOk(env, sessions) && n < env.cancelFrom &&
    FirstFault(env.addItem) == n && env.createImage.Done?
  }

  /** The worker reaches the image assembly: objects created and the media probed. */
  predicate WorkerSetupOk(env: WorkerEnv) {
    env.recorderSetup.Done? && env.mediaBlank.Ok? && (env.mediaBlank.value || env.sessions.Done?)
  }

  class MainForm {
    /** `freeSpaceOnDisk` and `totalSpaceOnDisk`, in whole megabytes; `None` is `null`. */
    var freeSpace: Option<int>
    var totalSpace: Option<int>
    /** The selected entry of the device list; `None` is `SelectedIndex == -1`. */
    var selected: Option<Recorder>
    /** `listBoxFiles.Items`. */
    var items: seq<MediaItem>
    /** `textBoxLabel.Text`. */
    var volumeLabel: string
    var burnEnabled: bool
    var burnCaption: string
    var statusText: string
    var progressValue: int
    var isBurning: bool
    var closeMedia: bool
    var ejectMedia: bool
    var verificationLevel: VerificationLevel
    /** `backgroundBurnWorker.CancellationPending`. */
    var cancelPending: bool
    var burnData: BurnData
    /**
     * The media's free space in megabytes as last read by a selection or a
     * detection (0 before any read): what the free figure should be with
     * nothing listed.
     */
    ghost var baseline: int
    /** Jobs handed to the background worker, and jobs it has reported complete. */
    ghost var jobsStarted: nat
    ghost var jobsFinished: nat

    /** The Burn button says Cancel exactly while burning, and at most one job runs at a time. */
    ghost predicate Valid()
      reads this
    {
      burnCaption == (if isBurning then CancelCaption else BurnCaption) &&
      jobsStarted == jobsFinished + (if isBurning then 1 else 0)
    }

    /** Free space is the media's free space as last read minus the listed items' footprint. */
    ghost predicate Ledger()
      reads this
    {
      Capacity.Ledger(freeSpace, items, baseline)
    }

    constructor ()
      ensures Valid() && Ledger()
      ensures freeSpace == None && totalSpace == None && selected == None && items == []
      ensures !isBurning && !cancelPending && statusText == ""
      ensures verificationLevel == VerificationNone
    {
      freeSpace, totalSpace, selected, items := None, None, None, [];
      volumeLabel, statusText, burnCaption := "", "", BurnCaption;
      burnEnabled, progressValue := false, 0;
      isBurning, closeMedia, ejectMedia, cancelPending := false, false, false, false;
      verificationLevel := VerificationNone;
      burnData := BurnData("", FileSystemTask, "", WriteEvent(0, 0, 0, ValidatingMedia, 0, 0, 0, 0, 0, 0, 0));
      baseline, jobsStarted, jobsFinished := 0, 0, 0;
    }

    /** `InitVolumeLabel`: the label defaults to today's date as `Year_Month_Day`. */
    method InitVolumeLabel(today: Date)
      modifies this`volumeLabel, this`statusText
      ensures volumeLabel == VolumeLabel(today) && statusText == ""
      ensures ParseVolumeLabel(volumeLabel) == Some(today)
    {
      volumeLabel := VolumeLabel(today);
      statusText := "";
      VolumeLabelRoundTrip(today);
    }

    /**
     * `DevicesComboBox_SelectedIndexChanged` after the selection becomes `r`:
     * a supported recorder sets the total from the media's sector count and
     * adds its free sectors to the free figure (or sets it when unknown). Each
     * native read that throws ends the handler with what it has set so far:
     * `totalSectors` stands for `TotalSectorsOnMedia`, `freeSectors` for
     * `FreeSectorsOnMedia`. The addition keeps the ledger only while the media
     * last read had no whole free megabyte (zero when none was read); a second
     * selection counts the media again.
     */
    method SelectDevice(r: Option<Recorder>, recorderSupported: Native<bool>,
                        totalSectors: Native<nat>, freeSectors: Native<nat>)
      modifies this`selected, this`totalSpace, this`freeSpace, this`baseline
      ensures selected == r
      ensures var proceeds := r.Some? && recorderSupported == Ok(true) && totalSectors.Ok?;
        totalSpace == (if proceeds then Some(SectorsToMegabytes(totalSectors.value)) else old(totalSpace)) &&
        freeSpace == (if proceeds && freeSectors.Ok? then AddFreeSectors(old(freeSpace), freeSectors.value)
                      else old(freeSpace))
      ensures var read := r.Some? && recorderSupported == Ok(true) && totalSectors.Ok? && freeSectors.Ok?;
        baseline == (if read then SectorsToMegabytes(freeSectors.value) else old(baseline)) &&
        (read && old(Ledger()) ==> (Ledger() <==> old(baseline) == 0)) &&
        (!read ==> (Ledger() <==> old(Ledger())))
    {
      selected := r;
      if r.None? {
        return;
      }
      if recorderSupported != Ok(true) {
        return;
      }
      if totalSectors.ComError? {
        return;
      }
      totalSpace := Some(SectorsToMegabytes(totalSectors.value));
      if freeSectors.ComError? {
        return;
      }
      var gained := SectorsToMegabytes(freeSectors.value);
      freeSpace := if freeSpace == None then Some(gained) else Some(freeSpace.value + gained);
      baseline := gained;
    }

    /**
     * `ButtonDetectMedia_Click`: with a recorder selected and its media
     * supported, the free figure is replaced by the media's free space; the
     * total is left as it was. `freeSectors` stands for the reads up to and
     * including `FreeSectorsOnMedia`; what the handler does after it (labels,
     * multisession import) cannot undo the new figure. The listed items are
     * not taken off, so the ledger survives only while they take no whole
     * megabyte.
     */
    method DetectMedia(mediaSupported: Native<bool>, freeSectors: Native<nat>)
      modifies this`freeSpace, this`baseline
      ensures var read := selected.Some? && mediaSupported == Ok(true) && freeSectors.Ok?;
        freeSpace == (if read then DetectFree(freeSectors.value) else old(freeSpace)) &&
        baseline == (if read then SectorsToMegabytes(freeSectors.value) else old(baseline)) &&
        (read ==> (Ledger() <==> Footprint(items) == 0)) &&
        (!read ==> (Ledger() <==> old(Ledger())))
    {
      if selected.None? {
        return;
      }
      if mediaSupported != Ok(true) {
        return;
      }
      if freeSectors.ComError? {
        return;
      }
      freeSpace := DetectFree(freeSectors.value);
      baseline := SectorsToMegabytes(freeSectors.value);
    }

    /** `EnableBurnButton`: burning is offered exactly when the list is not empty. */
    method EnableBurnButton()
      modifies this`burnEnabled
      ensures burnEnabled <==> |items| > 0
    {
      burnEnabled := |items| > 0;
    }

    /**
     * `ButtonAddFiles_Click` after the dialog chose a file: refused without any
     * change while free space is known and negative; otherwise the free figure
     * is debited and the file appended.
     */
    method AddFile(path: string, size: nat)
      modifies this`freeSpace, this`items, this`burnEnabled
      ensures Blocked(old(freeSpace)) ==>
        freeSpace == old(freeSpace) && items == old(items) && burnEnabled == old(burnEnabled)
      ensures !Blocked(old(freeSpace)) ==>
        freeSpace == DebitFile(old(freeSpace), size) && items == old(items) + [File(path, size)] && burnEnabled
      ensures old(Ledger()) ==> Ledger()
    {
      if Blocked(freeSpace) {
        return;
      }
      if Ledger() {
        LedgerAddFile(freeSpace, items, baseline, size, path);
      }
      freeSpace := DebitFile(freeSpace, size);
      items := items + [File(path, size)];
      EnableBurnButton();
    }

    /**
     * `ButtonAddFolders_Click` after the dialog chose a folder: as `AddFile`,
     * except that from unknown free space the folder's size is credited.
     */
    method AddFolder(path: string, size: nat)
      modifies this`freeSpace, this`items, this`burnEnabled
      ensures Blocked(old(freeSpace)) ==>
        freeSpace == old(freeSpace) && items == old(items) && burnEnabled == old(burnEnabled)
      ensures !Blocked(old(freeSpace)) ==>
        freeSpace == DebitFolder(old(freeSpace), size) && items == old(items) + [Folder(path, size)] && burnEnabled
      ensures old(Ledger()) && old(freeSpace).Some? ==> Ledger()
    {
      if Blocked(freeSpace) {
        return;
      }
      if Ledger() && freeSpace.Some? {
        LedgerAddFolder(freeSpace, items, baseline, size, path);
      }
      freeSpace := DebitFolder(freeSpace, size);
      items := items + [Folder(path, size)];
      EnableBurnButton();
    }

    /**
     * `ButtonRemoveFiles_Click`: with an item selected (`index`, -1 for none)
     * and the removal confirmed, its size is credited, it leaves the list, and
     * burning is offered iff the list is still non-empty. Never blocked by
     * negative free space.
     */
    method RemoveItem(index: int, confirmed: bool)
      requires -1 <= index < |items|
      modifies this`freeSpace, this`items, this`burnEnabled
      ensures index == -1 || !confirmed ==>
        freeSpace == old(freeSpace) && items == old(items) && burnEnabled == old(burnEnabled)
      ensures index >= 0 && confirmed ==>
        freeSpace == Credit(old(freeSpace), old(items)[index].sizeOnDisc) &&
        items == RemoveAt(old(items), index) && (burnEnabled <==> |items| > 0)
      ensures old(Ledger()) ==> Ledger()
    {
      if index == -1 {
        return;
      }
      if confirmed {
        if Ledger() {
          LedgerRemove(freeSpace, items, baseline, index);
        }
        freeSpace := Credit(freeSpace, items[index].sizeOnDisc);
        items := RemoveAt(items, index);
        EnableBurnButton();
      }
    }

    /**
     * `ButtonBurn_Click`. Nothing happens without a selected recorder or while
     * free space is known and negative (checked before the cancel branch).
     * While burning, the click only disables the button and requests
     * cancellation. Otherwise it snapshots the options and the recorder id and
     * starts one job.
     */
    method BurnClick(ejectChecked: bool)
      modifies this`burnEnabled, this`cancelPending, this`isBurning, this`closeMedia,
               this`ejectMedia, this`burnCaption, this`burnData, this`jobsStarted
      ensures var go := selected.Some? && !Blocked(freeSpace);
        (!go ==>
          burnEnabled == old(burnEnabled) && cancelPending == old(cancelPending) &&
          isBurning == old(isBurning) && closeMedia == old(closeMedia) && ejectMedia == old(ejectMedia) &&
          burnCaption == old(burnCaption) && burnData == old(burnData) && jobsStarted == old(jobsStarted)) &&
        (go && old(isBurning) ==>
          !burnEnabled && cancelPending && isBurning && closeMedia == old(closeMedia) &&
          ejectMedia == old(ejectMedia) && burnCaption == old(burnCaption) && burnData == old(burnData) &&
          jobsStarted == old(jobsStarted)) &&
        (go && !old(isBurning) ==>
          isBurning && closeMedia && ejectMedia == ejectChecked && !cancelPending &&
          burnCaption == CancelCaption && burnEnabled == old(burnEnabled) &&
          burnData == old(burnData).(uniqueRecorderId := selected.value.uniqueId) &&
          jobsStarted == old(jobsStarted) + 1)
      ensures old(Valid()) ==> Valid()
    {
      if selected.None? || Blocked(freeSpace) {
        return;
      }
      if isBurning {
        burnEnabled := false;
        cancelPending := true;
      } else {
        isBurning := true;
        closeMedia := true;
        ejectMedia := ejectChecked;
        burnCaption := CancelCaption;
        burnData := burnData.(uniqueRecorderId := selected.value.uniqueId);
        // RunWorkerAsync clears any earlier cancellation request
        cancelPending := false;
        jobsStarted := jobsStarted + 1;
      }
    }

    /**
     * `CreateMediaFileSystem`: adds the listed items to a new image in list
     * order, checking for cancellation before each one. A cancellation seen at
     * any checkpoint, or a native error, yields no image; the items added so
     * far are a prefix of the list that stops at the first checkpoint where a
     * cancellation was pending.
     */
    method CreateMediaFileSystem(sessions: bool, env: AssemblyEnv)
      returns (ok: bool, stream: Option<Image>, added: seq<MediaItem>)
      requires |env.addItem| == |items|
      ensures ok <==> stream.Some?
      ensures ok <==> AssemblySucceeds(env, sessions, |items|)
      ensures ok ==> stream == Some(Image(volumeLabel, sessions, items))
      ensures |added| <= |items| && added == items[..|added|]
      ensures |added| <= env.cancelFrom
      ensures !AssemblySetupOk(env, sessions) ==> added == []
      ensures AssemblySetupOk(env, sessions) ==>
        |added| == Min(Min(env.cancelFrom, FirstFault(env.addItem)), |items|)
    {
      ok, stream, added := false, None, [];
      if env.setup.Failed? {
        return;
      }
      if sessions && env.importSessions.Failed? {
        return;
      }
      var i := 0;
      while i < |items|
        invariant 0 <= i <= |items|
        invariant i <= env.cancelFrom && i <= FirstFault(env.addItem)
        invariant added == items[..i]
      {
        if env.cancelFrom <= i {
          break;
        }
        if env.addItem[i].Failed? {
          return;
        }
        added := added + [items[i]];
        i := i + 1;
      }
      if env.cancelFrom <= |items| {
        return;
      }
      if env.createImage.Failed? {
        return;
      }
      assert added == items;
      ok, stream := true, Some(Image(volumeLabel, sessions, added));
    }

    /**
     * `BackgroundBurnWorker_DoWork`. The result is -1 when no image was built
     * (cancelled or an assembly error), and then nothing is written or
     * ejected; otherwise the whole list is written with the snapshotted
     * recorder id and options, the result is 0 or the write's error code, and
     * ejection follows whenever it was asked for, whatever the write did; an
     * ejection error replaces the result. An error before assembly gives its
     * own code. A cancellation already pending when the job runs is seen at
     * the first checkpoint.
     */
    method DoWork(env: WorkerEnv) returns (outcome: WorkerOutcome)
      requires |env.assembly.addItem| == |items|
      requires cancelPending ==> env.assembly.cancelFrom == 0
      ensures outcome.write.Some? <==>
        WorkerSetupOk(env) && AssemblySucceeds(env.assembly, !env.mediaBlank.value, |items|)
      ensures outcome.write.Some? ==>
        (outcome.write.value == WriteRequest(burnData.uniqueRecorderId, closeMedia, verificationLevel,
                                             Image(volumeLabel, env.mediaBlank == Ok(false), items)))
      ensures outcome.ejected <==> outcome.write.Some? && ejectMedia
      ensures env.assembly.cancelFrom <= |items| ==> outcome.write.None? && !outcome.ejected
      ensures env.recorderSetup.Failed? ==> outcome.result == env.recorderSetup.code
      ensures env.recorderSetup.Done? && env.mediaBlank.ComError? ==> outcome.result == env.mediaBlank.code
      ensures env.recorderSetup.Done? && env.mediaBlank == Ok(false) && env.sessions.Failed? ==>
        outcome.result == env.sessions.code
      ensures WorkerSetupOk(env) && outcome.write.None? ==> outcome.result == -1
      ensures outcome.write.Some? ==>
        (outcome.result == if ejectMedia && env.eject.Failed? then env.eject.code
                           else if env.write.Done? then 0 else env.write.code)
    {
      if env.recorderSetup.Failed? {
        return WorkerOutcome(env.recorderSetup.code, None, false);
      }
      if env.mediaBlank.ComError? {
        return WorkerOutcome(env.mediaBlank.code, None, false);
      }
      var sessions := false;
      if !env.mediaBlank.value {
        if env.sessions.Failed? {
          return WorkerOutcome(env.sessions.code, None, false);
        }
        sessions := true;
      }
      var ok, stream, added := CreateMediaFileSystem(sessions, env.assembly);
      if !ok {
        return WorkerOutcome(-1, None, false);
      }
      var request := WriteRequest(burnData.uniqueRecorderId, closeMedia, verificationLevel, stream.value);
      var result := if env.write.Done? then 0 else env.write.code;
      if ejectMedia && env.eject.Failed? {
        result := env.eject.code;
      }
      outcome := WorkerOutcome(result, Some(request), ejectMedia);
    }

    /**
     * `DiscFormatData_Update`: with a cancellation pending, the event only asks
     * the engine to cancel the write (once) and leaves the progress record
     * alone; otherwise it copies the event into the record and reports it.
     */
    method OnWriteUpdate(event: WriteEvent) returns (cancelWrite: bool, report: Option<BurnData>)
      modifies this`burnData
      ensures cancelWrite == cancelPending
      ensures cancelPending ==> burnData == old(burnData) && report == None
      ensures !cancelPending ==>
        burnData == old(burnData).(task := WritingTask, write := event) && report == Some(burnData)
    {
      if cancelPending {
        return true, None;
      }
      burnData := burnData.(task := WritingTask, write := event);
      return false, Some(burnData);
    }

    /**
     * `FileSystemImage_Update`: an update naming a file records the message
     * and the file-system phase and reports them with the image percentage;
     * one without a file name changes and reports nothing.
     */
    method OnImageUpdate(currentFile: string, copiedSectors: int, totalSectors: int)
      returns (report: Option<(int, BurnData)>)
      modifies this`burnData
      ensures currentFile == "" ==> burnData == old(burnData) && report == None
      ensures currentFile != "" ==>
        burnData == old(burnData).(statusMessage := ImageMessage(currentFile), task := FileSystemTask) &&
        report == Some((ImagePercent(copiedSectors, totalSectors), burnData))
    {
      var percent := ImagePercent(copiedSectors, totalSectors);
      if currentFile == "" {
        return None;
      }
      burnData := burnData.(statusMessage := ImageMessage(currentFile), task := FileSystemTask);
      report := Some((percent, burnData));
    }

    /**
     * `BackgroundBurnWorker_ProgressChanged`: a file-system report shows its
     * message; a WritingData report first moves the bar to the write
     * percentage, then shows the writing line; any other action shows the
     * status table's phrase for it. `ok` is false where the handler throws (a
     * status-table miss, or a percentage outside the bar's 0..100 range),
     * changing nothing.
     */
    method ProgressChanged(data: BurnData, statusTable: map<WriteAction, string>) returns (ok: bool)
      modifies this`statusText, this`progressValue
      ensures data.task == FileSystemTask ==>
        ok && statusText == data.statusMessage && progressValue == old(progressValue)
      ensures data.task == WritingTask && data.write.currentAction == WritingData ==>
        var p := WritePercent(data.write.lastWrittenLba, data.write.startLba, data.write.sectorCount);
        (ok <==> 0 <= p <= 100) &&
        (ok ==> progressValue == p && statusText == WritingText(data.write)) &&
        (!ok ==> progressValue == old(progressValue) && statusText == old(statusText))
      ensures data.task == WritingTask && data.write.currentAction != WritingData ==>
        (ok <==> data.write.currentAction in statusTable) &&
        (ok ==> statusText == statusTable[data.write.currentAction]) &&
        (!ok ==> statusText == old(statusText)) && progressValue == old(progressValue)
    {
      if data.task == FileSystemTask {
        statusText := data.statusMessage;
        return true;
      }
      if data.write.currentAction == WritingData {
        var p := WritePercent(data.write.lastWrittenLba, data.write.startLba, data.write.sectorCount);
        if p < 0 || p > 100 {
          return false;
        }
        progressValue := p;
        statusText := WritingText(data.write);
        return true;
      }
      if data.write.currentAction !in statusTable {
        return false;
      }
      statusText := statusTable[data.write.currentAction];
      ok := true;
    }

    /**
     * `BackgroundBurnWorker_RunWorkerCompleted`: the status reports success
     * exactly when the result is 0, and the window returns to its idle state.
     * It runs only after a job was started. The worker has cleared its
     * cancellation request by then.
     */
    method RunWorkerCompleted(result: int)
      requires isBurning
      modifies this`statusText, this`progressValue, this`isBurning, this`burnCaption,
               this`burnEnabled, this`cancelPending, this`jobsFinished
      ensures statusText == (if result == 0 then FinishedText else ErrorText)
      ensures statusText == FinishedText <==> result == 0
      ensures progressValue == 0 && !isBurning && burnEnabled && burnCaption == BurnCaption && !cancelPending
      ensures jobsFinished == old(jobsFinished) + 1
      ensures old(Valid()) ==> Valid()
    {
      statusText := if result == 0 then FinishedText else ErrorText;
      progressValue := 0;
      isBurning := false;
      burnCaption := BurnCaption;
      burnEnabled := true;
      cancelPending := false;
      jobsFinished := jobsFinished + 1;
    }
  }
}
