# BurnMedia burn controller, in Dafny

This project models the burn controller inside the main window of the
BurnMedia disc-burning tool (`Disc/MainForm.cs`). The window's COM calls,
dialogs and threads are not modelled. What is modelled:

- **Capacity accounting.** The window keeps two nullable figures in whole
  megabytes, free and total space. Selecting a recorder, detecting media,
  adding a file or folder and removing an item each change them. They follow
  C#'s lifted-nullable rules: `null < 0` is false and `null + x` is null.
  Bytes become megabytes by integer division (`2048*sectors/1048576`,
  `SizeOnDisc/1048576`). Module `Capacity`, used by class
  `BurnMedia.MainForm`.
- **The burn list.** An ordered `seq` of files and folders, with append,
  remove and the rule that burning is offered iff the list is non-empty.
- **The Burn/Cancel toggle.** `_isBurning`, the snapshot of the close, eject
  and recorder-id options, the cancellation request and the completion
  handler. Ghost job counters show that at most one job runs at a time.
- **The background worker.** `DoWork` and `CreateMediaFileSystem` take every
  native call as an outcome parameter (`Done`/`Failed(code)`,
  `Ok(v)`/`ComError(code)`). Cancellation at the assembly checkpoints is the
  first checkpoint at which the worker sees it pending (`cancelFrom`).
- **Progress translation.** The write percentage and its status line, the
  image-build percentage and message, and the status dispatch on task and
  action (module `Progress`).
- **Small string functions.** The device label, the `", "`-joined profile
  list and the unpadded `Year_Month_Day` volume label (modules `Devices` and
  `Text`).

Files: `wrappers.dfy` (Option and native outcomes), `arith.dfy` (32-bit
wrap-around, C#'s truncating division, division lemmas), `text.dfy`,
`capacity.dfy`, `progress.dfy`, `devices.dfy`, `burn_media.dfy` (the class).

Stateful handlers are methods of `BurnMedia.MainForm`. Their `ensures` give
the whole new state in terms of the old one. They also preserve two
invariants:

- `Valid()`: the caption reads Cancel exactly while burning, and at most one
  job is running.
- `Ledger()`: free space equals the media's free space, as last read by a
  selection or a detection (zero before any read), minus the footprint of the
  listed items. Adding a file and removing keep it; adding a folder keeps it
  when free space is known. Selecting keeps it only while the media last read
  had no whole free megabyte (zero when none was read). Detecting keeps it
  only while the listed items take no whole megabyte (see "## Findings").

## Model

| member | source | states |
|---|---|---|
| `Arith.Wrap32` | Disc/MainForm.cs:426 | an unchecked 32-bit result or `(int)` cast lies in the `int` range, leaves an `int` unchanged, and differs from the exact value by a multiple of 2^32 |
| `Arith.TruncDiv` | Disc/MainForm.cs:503 | C#'s `/` truncates: the quotient's magnitude is the rounded-down quotient of the magnitudes, and its sign is that of the exact quotient (the same operator divides the negated size at line 526) |
| `Capacity.SectorsToMegabytes` | Disc/MainForm.cs:115-119 | `2048*sectors/1048576` is the sector count divided by 512, rounded down |
| `Capacity.DebitFile` | Disc/MainForm.cs:526 | adding a file debits its whole megabytes; unknown free space counts as zero (`-size/1048576` with C#'s truncating division) |
| `Capacity.DebitFolder` | Disc/MainForm.cs:546 | adding a folder debits like a file when free space is known, but from unknown free space sets it to +size in MB |
| `Capacity.DebitFolderIntended` | Disc/MainForm.cs:526-546 | the corrected folder debit equals the file debit of line 526 in every case, unknown free space included |
| `Capacity.CreditInvertsDebit` | Disc/MainForm.cs:526-564 | on a known figure, removing an item gives back exactly what adding it took, in either order; an unknown figure stays unknown under the lifted `+` |
| `Capacity.SelectBeforeMediaRefreshes` | Disc/MainForm.cs:117-119 | while no media was read yet, adding the media's free megabytes to the figure (or setting an unknown one) gives the media's free space less what is already listed |
| `Capacity.LedgerRefresh` | Disc/MainForm.cs:117-119 | the corrected reading (media free space less the listed footprint) restores the ledger against the media just read, and refuses adding iff the list needs more than the media holds |
| `Capacity.DetectRefreshesIffNothingListed` | Disc/MainForm.cs:187 | detection's new figure agrees with the corrected reading iff the listed items take no whole megabyte |
| `Capacity.ReselectDoubleCounts` | Disc/MainForm.cs:117-119 | two selections of 2 MB media with nothing listed leave 4 MB free against a 2 MB total, where the corrected reading gives 2 MB |
| `Capacity.DetectForgetsListedItems` | Disc/MainForm.cs:187 | with a 1 MB file listed on 2 MB media, detection reads 2 MB free, the ledger fails, and removing the file shows 3 MB; the corrected reading gives 1 MB |
| `Capacity.BlockedIffOverCommitted` | Disc/MainForm.cs:522 | under the ledger, the lifted `freeSpaceOnDisk < 0` test refuses exactly when the listed items need more than the media's free space, and never while free space is unknown |
| `Capacity.Megabytes` | Disc/MainForm.cs:526 | `SizeOnDisc / 1048576` is the number of whole megabytes: at most the size, with less than one megabyte left over |
| `Capacity.CreditUndoesFileDebit` | Disc/MainForm.cs:526-564 | removing a file right after adding it restores the free figure (to 0 if it was unknown) |
| `Capacity.RemoveAt` | Disc/MainForm.cs:566 | removal drops exactly the chosen position and keeps the order of the others |
| `Capacity.FootprintRemoveAt` | Disc/MainForm.cs:564-566 | removing any one item lowers the footprint by exactly that item's megabytes |
| `Capacity.LedgerAddFile` | Disc/MainForm.cs:522-529 | adding a file keeps free space equal to the media's free space as last read minus the footprint, from known or unknown free space |
| `Capacity.LedgerAddFolder` | Disc/MainForm.cs:540-549 | adding a folder keeps the ledger when free space is known |
| `Capacity.LedgerAddFolderIntended` | Disc/MainForm.cs:546 | the corrected folder debit keeps the ledger in every case |
| `Capacity.FolderFromUnknownCredits` | Disc/MainForm.cs:526-546 | from unknown free space, a 1 MB folder leaves +1 MB while a 1 MB file leaves -1 MB, which breaks the ledger |
| `Capacity.LedgerRemove` | Disc/MainForm.cs:564-566 | removing any item and crediting its size keeps the ledger |
| `Progress.WritePercent` | Disc/MainForm.cs:420-435 | the write percentage is 0 unless both the written sectors and `SectorCount` are positive; the `(int)` cast keeps it in 32 bits |
| `Progress.WritePercentIsShare` | Disc/MainForm.cs:422-426 | while the written sectors stay within `SectorCount`, the percentage is the rounded-down share, from 0 to 100 |
| `Progress.WritePercentMonotone` | Disc/MainForm.cs:422-426 | the percentage never decreases as `LastWrittenLba` grows |
| `Progress.WritePercentHalfway` | Disc/MainForm.cs:422-426 | 500 of 1000 sectors written from sector 0 gives 50 |
| `Progress.WritingTextIdle` | Disc/MainForm.cs:424-434 | before any sector counts as written the line is `Progress 0%`, which no share line `Progress: N%` equals (the colon is missing) |
| `Progress.WritingTextShowsShare` | Disc/MainForm.cs:426-428 | within the job, the line shows the share as decimal digits that read back as it |
| `Progress.ImagePercent` | Disc/MainForm.cs:500-504 | the image percentage is 0 unless both copied and total sectors are positive |
| `Progress.ImagePercentIsShare` | Disc/MainForm.cs:500-504 | while the 32-bit product fits and no more than the total is copied, the percentage is `copied*100/total`, from 0 to 100 |
| `Progress.ImageMessage` | Disc/MainForm.cs:508-509 | the message is `Adding "` + the file's name without its directory + `" to image...` |
| `Text.FileName` | Disc/MainForm.cs:508-509 | `FileInfo.Name` is the longest suffix of the path with no `\`, `/` or `:` |
| `Text.NatToString` | Disc/MainForm.cs:79 | `int.ToString()` of a non-negative number is decimal digits with no leading zero |
| `Text.IntToString` | Disc/MainForm.cs:426-428 | the rendering of a non-negative number is a numeral that reads back as it; a negative one is `-` and a numeral that reads back as its magnitude |
| `Text.DecimalRoundTrip` | Disc/MainForm.cs:79 | reading the decimal rendering back gives the number |
| `Text.NonEmpty` | Disc/MainForm.cs:126-129 | every name kept is non-empty, a name is kept iff it is a non-empty input name, and no more names come out than went in |
| `Text.NonEmptyConcat` | Disc/MainForm.cs:124-135 | the filter distributes over concatenation, so the kept names keep their input order and repetitions |
| `Text.JoinEmptyIff` | Disc/MainForm.cs:130-134 | joined non-empty parts are empty iff there are no parts, which is what the `Length > 0` separator test relies on |
| `Text.SplitJoin` | Disc/MainForm.cs:154-161 | joining comma-free parts with `,` is undone by splitting at `,` |
| `Text.VolumeLabel` | Disc/MainForm.cs:79 | split at `_`, the label is exactly three pieces: the unpadded year, month and day numerals |
| `Text.VolumeLabelRoundTrip` | Disc/MainForm.cs:79 | the unpadded `Year_Month_Day` label parses back to the same date |
| `Devices.DeviceLabel` | Disc/MainForm.cs:149-162 | no label iff there is no volume path (`GetValue(0)` throws); otherwise the label equals the corrected label of a recorder whose every path is the first one, or just ` [product id]` when the first path is empty |
| `Devices.FormatDevice` | Disc/MainForm.cs:149-163 | over the recorder's volume paths and product id, the handler's loop yields the first volume path once per volume path, with `,` between, then ` [product id]`; no label without a volume path |
| `Devices.DeviceLabelRepeatsFirstPath` | Disc/MainForm.cs:153-161 | split at commas, the device part is the first path repeated once per volume path |
| `Devices.DeviceLabelIntended` | Disc/MainForm.cs:154-161 | the corrected label exists iff there is a volume path; with comma-free paths its device part is empty when every path is, and otherwise splits back into exactly the paths from the first non-empty one on, in order |
| `Devices.FormatDeviceIntended` | Disc/MainForm.cs:152-162 | the handler's loop with `volPath` appended in place of `volumePath` produces exactly `DeviceLabelIntended` |
| `Devices.DropLeadingBlanksSuffix` | Disc/MainForm.cs:156-159 | the emptiness test on the text built so far drops only the empty paths before the first non-empty one; what is kept is the rest of the paths, unchanged |
| `Devices.DeviceLabelIntendedBlankPaths` | Disc/MainForm.cs:156-160 | under the fixed loop `["", "E:\"]` gives `E:\ [BD]`, and `["D:\", "", "E:\"]` gives `D:\,,E:\ [BD]` |
| `Devices.DeviceLabelDropsOtherPaths` | Disc/MainForm.cs:153-161 | a recorder at `D:\` and `E:\` is shown as `D:\,D:\ [BD]` where `D:\,E:\ [BD]` was meant |
| `Devices.SupportedMediaTypes` | Disc/MainForm.cs:122-135 | the loop joins the non-empty profile names with `", "` |
| `Devices.SupportedMediaTypesEmptyIff` | Disc/MainForm.cs:122-135 | the profile list is empty iff every profile name is empty |
| `BurnMedia.FirstFault` | Disc/MainForm.cs:462-468 | the first item whose add throws: every earlier add succeeded |
| `BurnMedia.MainForm.constructor` | Disc/MainForm.cs:20-30 | a new window has unknown capacity, an empty list, no selection, no job, and verification level None |
| `BurnMedia.MainForm.InitVolumeLabel` | Disc/MainForm.cs:76-81 | the label becomes `Year_Month_Day` of the given date, which parses back to it, and the status is cleared |
| `BurnMedia.MainForm.SelectDevice` | Disc/MainForm.cs:94-147 | with a recorder selected and supported, the total is set and free sectors are added or set; a read that throws stops the handler there; a ledger that held before survives a read iff the media last read had no whole free megabyte (zero when none was read) |
| `BurnMedia.MainForm.DetectMedia` | Disc/MainForm.cs:165-189 | with a recorder selected and its media supported, free space is replaced by the media's free space and the total is untouched; after a read the ledger holds iff the list takes no whole megabyte |
| `BurnMedia.MainForm.EnableBurnButton` | Disc/MainForm.cs:437-440 | burning is offered iff the list is non-empty |
| `BurnMedia.MainForm.AddFile` | Disc/MainForm.cs:517-532 | refused with nothing changed iff free space is known and negative; otherwise debits the file and appends it; keeps the ledger |
| `BurnMedia.MainForm.AddFolder` | Disc/MainForm.cs:534-551 | refused with nothing changed iff free space is known and negative; otherwise debits the folder as written and appends it |
| `BurnMedia.MainForm.RemoveItem` | Disc/MainForm.cs:553-569 | a confirmed removal of the selected item credits it, drops it, offers burning iff items remain, and is never blocked by negative free space |
| `BurnMedia.MainForm.BurnClick` | Disc/MainForm.cs:220-247 | no effect without a selection or with negative known free space; while burning only disables the button and requests cancellation; otherwise snapshots close/eject/recorder id and starts exactly one job |
| `BurnMedia.MainForm.CreateMediaFileSystem` | Disc/MainForm.cs:442-495 | adds a prefix of the list in order that stops at the first pending cancellation or error; yields an image of the whole list iff setup, every add and image creation succeed and no checkpoint saw a cancellation |
| `BurnMedia.MainForm.DoWork` | Disc/MainForm.cs:249-346 | a cancellation pending at the start is seen at the first checkpoint; result -1 and no write or eject when no image was built; otherwise writes the whole list with the snapshot options; result 0 or the write's code; ejects whenever asked, whatever the write did, and an eject error overrides the result |
| `BurnMedia.MainForm.OnWriteUpdate` | Disc/MainForm.cs:348-376 | with a cancellation pending, asks for one CancelWrite and leaves the progress record unchanged; otherwise copies the event into it and reports it |
| `BurnMedia.MainForm.OnImageUpdate` | Disc/MainForm.cs:497-515 | an update naming a file records the message and the file-system phase and reports them with the percentage; otherwise nothing |
| `BurnMedia.MainForm.ProgressChanged` | Disc/MainForm.cs:404-435 | a file-system report shows its message; WritingData first sets the bar to the write percentage, then shows the writing line; any other action shows the status table's phrase; a table miss or an out-of-range percentage throws and changes nothing |
| `BurnMedia.MainForm.RunWorkerCompleted` | Disc/MainForm.cs:378-387 | runs only after a job was started; reports "Finished" iff the result is 0, and returns to idle (not burning, caption Burn, button enabled, bar at 0), finishing that job |

## Findings

| source | as written | input that shows it | evidently intended | confidence | as-written member | corrected member |
|---|---|---|---|---|---|---|
| Disc/MainForm.cs:546 | with free space unknown, adding a folder sets free space to +size/1048576 | no media detected; add a 1 MB folder: free space reads +1 MB, where a 1 MB file gives -1 MB | debit the folder as the file branch at line 526 does | medium (not executed) | `Capacity.FolderFromUnknownCredits` | `Capacity.LedgerAddFolderIntended` |
| Disc/MainForm.cs:153-161 | the loop appends `volumePath` (the first path) instead of the loop variable `volPath` | a recorder mounted at `D:\` and `E:\` is shown as `D:\,D:\ [BD]` | list every volume path: `D:\,E:\ [BD]` | high (not executed) | `Devices.DeviceLabelDropsOtherPaths` | `Devices.DeviceLabelIntended` |
| Disc/MainForm.cs:117-119 | a selection adds the media's free space to a figure that is already known | select one recorder with 2 MB free media, then another with 2 MB free media, nothing listed: free space reads 4 MB against a 2 MB total | the addition is right only before any media was read; afterwards free space should be the media's free space less the listed items | medium (not executed) | `Capacity.ReselectDoubleCounts` | `Capacity.LedgerRefresh` |
| Disc/MainForm.cs:187 | Detect Media sets free space to the media's free space and ignores the listed items | 2 MB media, a 1 MB file listed (1 MB free), then Detect Media: free reads 2 MB; removing the file shows 3 MB on a 2 MB disc | take the listed items off the media's free space | medium (not executed) | `Capacity.DetectForgetsListedItems` | `Capacity.LedgerRefresh` |

The window class `BurnMedia.MainForm` and `Devices.FormatDevice` keep the
behaviour as written, so they model the program that ships. The corrected
definitions are `Capacity.DebitFolderIntended`, `Devices.DeviceLabelIntended`
and `Capacity.RefreshFree`. Each is proved against the property the written
code misses: the ledger, and listing each path from the first non-empty one
on. `Devices.FormatDeviceIntended` is the handler's loop with the loop
variable appended, proved to produce `Devices.DeviceLabelIntended`.
`SelectDevice` and
`DetectMedia` state in their contracts exactly when the written code still
keeps the ledger.

## Left out

- COM object creation and release (`Marshal.ReleaseComObject`, `FinalReleaseComObject`), event-handler subscription, `ImportFileSystem`, `CreateResultImage`, `Write`, `CancelWrite` and `EjectMedia` are not called. Each is an outcome parameter or a returned flag.
- Detect Media's media-type label and multisession import have no effect on the modelled state.
- `MainForm_Load` and `MainForm_FormClosing` are not modelled. They enumerate recorders, check `IsSupportedEnvironment` and release recorders. A selection is passed to `SelectDevice` instead.
- Threads are not modelled. The `BackgroundWorker`, `RunWorkerAsync`/`CancelAsync` marshalling and `ReportProgress` run on other threads. Cancellation is a flag: the class field for write updates, and `cancelFrom` for the assembly checkpoints. `DoWork` links the two only at the start: a request already pending is seen at the first checkpoint. A request made while the job runs moves `cancelFrom`, which the model takes as given.
- The model copies `BurnData` by value. In the source the worker and the window share one `_burnData` object, and that aliasing is not captured.
- User-interface code is presentation only and is not modelled. This covers message boxes, the file and folder dialogs, `ListBoxFiles_DrawItem`, `ListBoxFiles_SelectedIndexChanged`, the notify icon, `MainForm_Resize`, `BurnerNotifyIcon_MouseDoubleClick` and `TabControl_Selecting`. `EnableBurnUi` enables controls, but only its Burn/Cancel caption is modelled. A dialog that is cancelled simply means the add method is not called.
- `FileItem`/`DirectoryItem` and their `SizeOnDisc` computation are not part of this model. An item is a path with a non-negative byte size.
- The `Dictionares` tables are not part of this model. The status table is a `map`. A missing entry makes `ProgressChanged` return `ok == false` and leave the status line unchanged, where the source's lookup throws. The profile names reach `Devices.SupportedMediaTypes` already looked up. The source computes that list and then discards it.
- Capacity figures are `double?` in the source and `Option<int>` here. Every stored value is an integer quotient, which a double holds exactly.
- Capacity.SectorsToMegabytes: computes `2048*sectors` on unbounded integers. If the interop declares the sector counts as 32-bit `int`, the source's product wraps from 1048576 sectors (2 GiB) up.
- Progress.WritePercent: the 64-bit subtraction and product are unbounded here. Overflow cannot happen for the 32-bit LBAs the engine reports. Only the final `(int)` cast is modelled.
- Progress.WritePercentMonotone: holds only while the larger share still fits the `(int)` cast, which wraps above 2^31-1 percent.
- BurnMedia.MainForm.ProgressChanged: assumes the progress bar keeps its default range of 0..100, because the designer file is not part of this model.
- BurnMedia.MainForm.RemoveItem: `ListBox.Items.Remove` removes the first entry equal to the selected object. Items are distinct objects, so the model removes the selected position.
- Exceptions other than `COMException` are not modelled: an invalid path in `FileInfo`, a dictionary miss in the profile lookup, and the `(int)e.Result` cast after a non-COM failure. Null strings are not modelled either.
- `DateTime.Now` is an input: `InitVolumeLabel` takes the date.
