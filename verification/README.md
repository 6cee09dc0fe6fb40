# The boot path of U-Boot, verified in Dafny

This project models the algorithmic parts of U-Boot's boot path and proves what they are for.
Code that updates things step by step is written as methods and classes over arrays and fields;
each is proved equal to a function on values, and the theorems are about those functions.
Device trees, block devices, drivers and the environment are inputs: tag streams, byte arrays,
and functions that say how the n-th check, transfer or overlay turns out.

- **Device-tree regions** (`FdtScan`, `FdtScanProofs`, `FdtRegions`, `FdtFindRegions`, `FdtFinder`).
  One pass over the tags of a structure block (section 5.4 of the Devicetree Specification), with a
  path buffer, a stack of levels and a list of regions that merges and may be too short.
  It is proved equal to a recursive definition over the tree.
- **Bootflow scan** (`BootflowModel`, `BootflowOrder`, `BootflowLoops`, `BootflowIter`,
  `BootflowOffers`, `BootflowMethods`, `BootflowProbe`, `BootflowLists`).  A resumable iterator over phases, bootdevs,
  partitions and bootmeths.  It only moves forward and refines nested loops.  Two linked lists of
  bootflows are kept in step.
- **PXE and extlinux menus** (`PxeLexer`, `PxeParser`, `PxeTokens`, `PxeValues`, `PxeProofs`,
  `PxeLines`, `PxeRoundTrip`, `PxeMenus`, `PxeReader`).  A lexer with modes, a parser with token
  put-back and includes.  Whole menus, included files and all, are read back from their text.
- **Android A/B slots** (`AndroidAb`, `AndroidAbRuns`).  A state machine kept on disk across boots.
- **Storage enumeration** (`StorageEnum`, `StorageEnumRuns`).  An enumerator whose state is split
  between the caller's cookie and flags per group.
- **Movers and folds** (`SilentConsole`, `MemmoveWd`, `Eeprom`, `Clone`, `FitOverlay`,
  `FlashChecksum`).  Each refines a simple function.

`Results` and `CStrings` hold shared definitions.  The configuration options `BOOTSTD_FULL`,
`BOOTMETH_GLOBAL` and `OF_LIBFDT_OVERLAY` are taken as on.

## Where the code and its comments differ

The model follows the code.  The lemmas named give an input and the exact condition.

- Device-tree regions: a structure block that ends inside its root is accepted
  (`UnclosedRootAccepted`, `TreeIffBalanced`).
- Bootflow scan: a success does not clear a recorded error, so a no-more-parts left by one disk can
  end the next bootdev after one offer (`FindAfterDisk`, `StaleErrorIff`).  The bootmeth after a
  dropped one is passed over once (`SecondPassedOver`, `DropSkipsIff`), and the last bootmeth cannot
  be dropped for good (`DroppedForGood`).
- Probing: a bootdev that fails to probe is not passed over.  The search by priority tries it for
  ever, or goes back to the first bootdev of its priority and the scan never ends (`SentBack`,
  `SearchProperIff`, `SearchOutcome`).
- Menus: a comment says a prompt without a value does not fail, but the parse fails
  (`BarePromptFails`, `PromptFailsIff`).  An empty menu line takes the line after it along
  (`BareMenuLoses`, `MenuLineIff`, `LabelMenuLineIff`).  A blank line that ends in a carriage return
  ends a label (`CarriageReturnStops`, `WhiteLineStops`).  Some unterminated last lines are read past their end
  (`UnterminatedOverruns`, `StatementOverrunIff`).  Arguments with "initrd=" and no space after it
  are undefined behaviour (`RamdiskAtEnd`, `RamdiskFromArguments`), and so is a default without a
  label (`BareDefaultUndefined`, `DefaultUndefinedIff`).  A title, background or include line right
  after a label belongs to that label and is lost (`MenuOtherTurn`, `Effects`).  The value of a
  repeated ramdisk or device tree is read as a keyword (`SecondTreeEnds`, `RepeatedValue`), and a
  configuration named with one kernel stays with the next (`KernelSplitIff`).
- A/B slots: a comment calls a slot bootable when it has tries left or has booted successfully; the
  code asks for tries left in both cases (`BootedSlotRefused`, `SaidRuleIff`).
- Silent console: text that merely ends in "console=" is rewritten too (`InsideArgument`,
  `OwnArgIff`).
- EEPROM: burst lengths come from the low eight offset bits, so pages above 256 bytes are not
  respected (`LastByteRunsOn`, `PagesUpTo256`).
- Storage enumeration: an inactive descriptor hides the later active ones of its group
  (`HiddenDevice`, `CompleteIff`).

## Model

| member | source | states |
|---|---|---|
| FdtFindRegions.FindMatchesTree | u-boot-orangepi_3lts/boot/fdt_region.c:32-162 | for every single-root tree with proper names and every pair of lists, the one-pass finder succeeds if and only if the tree fits depth and path limits; its count is within the caller's list if and only if the true number of maximal runs is, and then the stored regions are exactly those runs: increasing, separated, holding exactly the bytes of the tags the recursive reference includes, plus excluded node ends directly after an included tag |
| FdtFindRegions.FindOnScan | u-boot-orangepi_3lts/boot/fdt_region.c:50-161 | the same for any tag stream closed by the end tag, in terms of the tags the scan kept |
| FdtFindRegions.FindRefuses | u-boot-orangepi_3lts/boot/fdt_region.c:50-161 | which error is returned: that of the first tag the tree does not survive, and a bad layout if the end tag is missing or the structure size is not that of the tags |
| FdtFindRegions.TreeIffBalanced | u-boot-orangepi_3lts/boot/fdt_region.c:111-150 | an accepted stream is that of one rooted tree if and only if it holds a node and as many node ends as node begins |
| FdtFindRegions.UnclosedRootAccepted | u-boot-orangepi_3lts/boot/fdt_region.c:124-150 | counterexample: a stream that ends inside its root is accepted |
| FdtFindRegions.CollectedRuns | u-boot-orangepi_3lts/boot/fdt_region.c:129-161 | the merging, truncating list at the end of the pass stands for the maximal runs, with the end tag's run stretched over the string table |
| FdtFinder.FindRegions | u-boot-orangepi_3lts/boot/fdt_region.c:32-162 | the imperative pass, with path buffer, stack array and region array updated in place, returns the count or error of the specified pass and leaves its regions in the array; every write is inside its array |
| FdtFinder.ReadTags | u-boot-orangepi_3lts/boot/fdt_region.c:50-147 | the loop over tags stops at the first end tag or error in step with the specified scan |
| FdtFinder.ReadTag | u-boot-orangepi_3lts/boot/fdt_region.c:58-127 | one tag updates buffer, stack and `want` as the specified step does |
| FdtFinder.EnterNode | u-boot-orangepi_3lts/boot/fdt_region.c:84-109 | entering a node keeps the NUL-ended buffer and the stack in step with the abstract path and levels, and reports each limit |
| FdtFinder.LeaveNode | u-boot-orangepi_3lts/boot/fdt_region.c:111-122 | leaving a node restores the saved level and the truncated buffer |
| FdtFinder.PutTag | u-boot-orangepi_3lts/boot/fdt_region.c:129-146 | opening, merging and closing a region in the caller's array agrees with the abstract list even when the array is full |
| FdtFinder.StrInList | u-boot-orangepi_3lts/boot/fdt_region.c:21-30 | true if and only if the string is in the list |
| FdtScanProofs.RunAgrees | u-boot-orangepi_3lts/boot/fdt_region.c:84-122 | at every tag of every run: the scan has not failed if and only if the tags read spell out part of one fitting tree, and then the buffer is the open node's path, the stack holds each ancestor's level and the decisions so far are the reference's |
| FdtScanProofs.RefusalIs | u-boot-orangepi_3lts/boot/fdt_region.c:58-122 | the error of a refused tag follows from the tree alone: anything after the root, a property without a name, an end without a node, nesting of 32, a root with a name, a path that does not fit, in that order |
| FdtScanProofs.ScanMatchesTree | u-boot-orangepi_3lts/boot/fdt_region.c:50-127 | over a whole tree the stack machine keeps exactly the tags of the recursive reference and ends with empty stack and path |
| FdtScanProofs.ScanEndsInTree | u-boot-orangepi_3lts/boot/fdt_region.c:111-122 | converse: tags after which the scan expects the end are the flattening of a single-root tree |
| FdtScanProofs.PushIsAbsolute | u-boot-orangepi_3lts/boot/fdt_region.c:93-98 | at each node begin the buffer becomes that node's absolute path |
| FdtScanProofs.PopIsParent | u-boot-orangepi_3lts/boot/fdt_region.c:117-119 | at each node end the buffer becomes what the parent had; after a child of the root the root's own slash is gone too |
| FdtScanProofs.PopUndoesPush | u-boot-orangepi_3lts/boot/fdt_region.c:95-119 | cutting at the last slash undoes appending a slash-free name |
| FdtRegions.GatherTracksRuns | u-boot-orangepi_3lts/boot/fdt_region.c:129-146 | at every point of the pass, count, open region and stored prefix stand for the maximal runs of the tags read, for every array size |
| FdtRegions.RunsCover | u-boot-orangepi_3lts/boot/fdt_region.c:129-146 | the runs hold a byte if and only if it belongs to a covered tag |
| FdtRegions.RunsSeparated | u-boot-orangepi_3lts/boot/fdt_region.c:129-146 | runs increase and have a gap between each two |
| FdtRegions.SpansUnique | u-boot-orangepi_3lts/boot/fdt_region.c:129-146 | separated spans are determined by the bytes they hold, so "the maximal runs" is well defined |
| BootflowOrder.IncrAdvances | u-boot-orangepi_3lts/boot/bootflow.c:161-289 | a successful step moves (phase, bootdev or label, partition, bootmeth) strictly up lexicographically, whatever error is recorded, and keeps the iterator valid |
| BootflowOrder.CheckStays | u-boot-orangepi_3lts/boot/bootflow.c:299-338 | a check changes neither the position nor validity, though it may raise the partition limit |
| BootflowOrder.DropStays | u-boot-orangepi_3lts/boot/bootflow.c:101-116 | dropping a bootmeth keeps position and validity |
| BootflowOrder.RestAscends | u-boot-orangepi_3lts/boot/bootflow.c:388-414 | within one scan every offered position lies strictly after all earlier ones, so none is offered twice |
| BootflowOrder.PlayAscends | u-boot-orangepi_3lts/boot/bootflow.c:101-414 | the same for every interleaving of steps, checks with any answers and drops |
| BootflowOrder.AscendingOnce | u-boot-orangepi_3lts/boot/bootflow.c:388-414 | positions that only move up never come back, neither the first nor any later one |
| BootflowLoops.MethodsRefine | u-boot-orangepi_3lts/boot/bootflow.c:171-199 | the state machine inside one partition is a loop over the plain bootmeths |
| BootflowLoops.PartitionsRefine | u-boot-orangepi_3lts/boot/bootflow.c:171-215 | on one bootdev it is a loop over partitions around it, with a limit that may rise on the way |
| BootflowLoops.DevicesRefine | u-boot-orangepi_3lts/boot/bootflow.c:207-289 | across bootdevs it is a loop over the list of those the labels name, or else over the list sorted by priority |
| BootflowLoops.GlobalsRefine | u-boot-orangepi_3lts/boot/bootflow.c:161-289 | from the global phase on, the positions offered are those of the nested loops, in order |
| BootflowLoops.NextPrioWalks | u-boot-orangepi_3lts/boot/bootdev-uclass.c:592-654 | asking for the next bootdev again and again walks down one list |
| BootflowLoops.NextLabelWalks | u-boot-orangepi_3lts/boot/bootdev-uclass.c:573-590 | asking for the next label again and again walks down the bootdevs the labels name |
| BootflowLoops.OnwardSorted | u-boot-orangepi_3lts/boot/bootdev-uclass.c:592-654 | that list holds every bootdev of proper priority once, by priority and then list position |
| BootflowLoops.InOrderOnce | u-boot-orangepi_3lts/boot/bootdev-uclass.c:592-654 | a list in that order holds no bootdev twice; priorities never fall, and within one the list position rises |
| BootflowLoops.NextSiblingWalks | u-boot-orangepi_3lts/boot/bootflow.c:237-258 | asking for the next bootdev of a medium again and again walks down one list |
| BootflowLoops.SiblingsAre | u-boot-orangepi_3lts/boot/bootflow.c:237-258 | that list holds exactly the bootdevs of the medium from there on, in list order |
| BootflowOffers.FullProductIff | u-boot-orangepi_3lts/boot/bootflow.c:161-289 | whatever the checks answer, a bootdev is offered a prefix of the row-major product of its revealed partitions and the plain bootmeths; it is the full product if and only if no more partitions or devices is never the recorded error between two of those offers |
| BootflowOffers.PartitionsWalk | u-boot-orangepi_3lts/boot/bootflow.c:161-289 | the nested loops over one bootdev are one walk along that product, broken off at the first such record, with the same error left recorded |
| BootflowOffers.DiskIff | u-boot-orangepi_3lts/boot/bootdev-uclass.c:111-164 | with the check on partition 30 always answering no more partitions: a bootdev with a table is offered partitions 0 to 29 with every bootmeth and 30 with the first only, if and only if nothing cuts it short before; no more partitions then stays recorded |
| BootflowOffers.FruitlessScan | u-boot-orangepi_3lts/boot/bootflow.c:161-289 | a scan that finds nothing offers, bootdev by bootdev, everything there is: the disk list above for one with a table, all bootmeths on the whole device otherwise |
| BootflowOffers.StaleErrorIff | u-boot-orangepi_3lts/boot/bootflow.c:388-414 | what an earlier bootdev left recorded changes the offers of this one if and only if it is no more partitions, the first check here succeeds, and there is a second offer to lose |
| BootflowOffers.FindAfterDisk | u-boot-orangepi_3lts/boot/bootflow.c:340-414 | a whole scan in which that happens: after a fruitless disk, a bootdev with a find at once is left after that one offer |
| BootflowIter.ScanIsNestedLoops | u-boot-orangepi_3lts/boot/bootflow.c:340-414 | a whole scan by label or priority, with the default order and a plain bootmeth, offers exactly what the nested loops (globals; bootdevs; partitions; bootmeths) offer, a no-more-devices from any check cutting it short |
| BootflowIter.ChosenScan | u-boot-orangepi_3lts/boot/bootflow.c:161-414 | a whole scan of one chosen bootdev, of its uclass from there on, or of its medium offers exactly what the loops over [that bootdev], over all later ones, or over the later ones of the same medium offer, with no global phase; it has nothing to offer if and only if there is no plain bootmeth |
| BootflowIter.RecordingAlike | u-boot-orangepi_3lts/boot/bootflow.c:372-383 | that the first error goes unrecorded when all results are wanted changes nothing: an error other than the end of partitions or devices leaves no mark on any later offer |
| BootflowIter.Iterator.Increment | u-boot-orangepi_3lts/boot/bootflow.c:161-289 | the in-place step equals the specified one, whose whole runs are the nested loops of ScanIsNestedLoops and ChosenScan |
| BootflowIter.Iterator.ScanNext | u-boot-orangepi_3lts/boot/bootflow.c:388-414 | the endless-looking loop ends; what was offered and what is left always make up the same list; every answer passed over is a failure, with the all flag only the end of partitions or a lack of support; it stops at the first success, with the all flag at the first other failure, or at the end when there is none |
| BootflowIter.Iterator.ScanFirst | u-boot-orangepi_3lts/boot/bootflow.c:340-386 | starts a scan; offered plus remaining is the whole scan, or nothing is left; the first check is reported if it succeeds, or fails in any way when all results are wanted; otherwise the scan goes on as above, and no answer before the one returned was one to report |
| BootflowIter.Iterator.TryNext | u-boot-orangepi_3lts/boot/bootflow.c:388-414 | one turn offers the head of what is left and leaves the tail |
| BootflowIter.Iterator.Check | u-boot-orangepi_3lts/boot/bootflow.c:299-338 | one check records its offer and raises the partition limit when it saw a table |
| BootflowIter.MoveUp | u-boot-orangepi_3lts/boot/bootflow.c:109-111 | the in-place move shifts the later entries one place to the front and leaves all others alone |
| BootflowIter.Iterator.DropBootmeth | u-boot-orangepi_3lts/boot/bootflow.c:101-116 | succeeds if and only if the current bootmeth is meant; then every earlier bootmeth keeps its index, every later one moves up by one, and the rest of the array is untouched |
| BootflowIter.Iterator.constructor | u-boot-orangepi_3lts/boot/bootflow.c:86-94 | a fresh iterator has no global phase and nothing offered |
| BootflowIter.Iterator.Prepare | u-boot-orangepi_3lts/boot/bootflow.c:340-370 | order and first bootdev, unless global bootmeths come first; a flag, a bootdev or a label skips those, and a bootdev without a label still scans everything |
| BootflowIter.Iterator.SelectDevice | u-boot-orangepi_3lts/boot/bootflow.c:217-282 | picks the next bootdev by flag, label or priority, as the lists of NextPrioWalks, NextLabelWalks and NextSiblingWalks go on |
| BootflowIter.Iterator.FindByPrio | u-boot-orangepi_3lts/boot/bootdev-uclass.c:592-654 | the two-variable search loop ends and finds the next bootdev of the same or a later priority |
| BootflowIter.Iterator.FindByLabel | u-boot-orangepi_3lts/boot/bootdev-uclass.c:573-590 | finds the next label that names a bootdev |
| BootflowIter.Iterator.SetupDevices | u-boot-orangepi_3lts/boot/bootdev-uclass.c:656-724 | starts with the first label or the first priority |
| BootflowIter.Iterator.SetupOrder | u-boot-orangepi_3lts/boot/bootmeth-uclass.c:145-192 | two passes: plain bootmeths then global ones, with the scan started at the global ones |
| BootflowIter.Pass | u-boot-orangepi_3lts/boot/bootmeth-uclass.c:154-177 | one pass appends the matching bootmeths by sequence number until the list is full |
| BootflowMethods.OrderComplete | u-boot-orangepi_3lts/boot/bootmeth-uclass.c:145-191 | the plain and the global bootmeths are listed in order of sequence number, up to the first one out of reach; the list is complete if and only if no sequence number is 20 plus twice the number of bootmeths or more |
| BootflowMethods.DroppedForGood | u-boot-orangepi_3lts/boot/bootflow.c:101-116 | a dropped bootmeth is never offered again in the rest of the scan, whatever the checks answer, if it was not the only one left; the only one comes back with the next offer |
| BootflowMethods.DropSkipsIff | u-boot-orangepi_3lts/boot/bootflow.c:101-205 | a drop makes the scan pass over a bootmeth on this partition if and only if one follows the dropped one and neither end is recorded; otherwise the step leads where it would have led |
| BootflowMethods.SecondPassedOver | u-boot-orangepi_3lts/boot/bootflow.c:101-116 | counterexample: of three bootmeths, the third comes after the first is dropped |
| BootflowModel.NextAt | u-boot-orangepi_3lts/boot/bootdev-uclass.c:607-623 | the first bootdev of the priority, with none before it, or none at all |
| BootflowModel.NextLabel | u-boot-orangepi_3lts/boot/bootdev-uclass.c:573-590 | the next label that names a bootdev lies strictly later and all labels passed over name none |
| BootflowModel.NextSibling | u-boot-orangepi_3lts/boot/bootflow.c:237-258 | the next bootdev of the same medium, with none in between, or none at all |
| BootflowProbe.SearchProperIff | u-boot-orangepi_3lts/boot/bootdev-uclass.c:592-654 | with probes that may fail, a search from any start comes to the next bootdev in scan order, or to the end, if and only if that bootdev, if any, probes |
| BootflowProbe.SearchOutcome | u-boot-orangepi_3lts/boot/bootdev-uclass.c:592-654 | otherwise it comes to the very first bootdev of the failing one's priority if that one probes, and goes on for ever if not |
| BootflowProbe.NeverPast | u-boot-orangepi_3lts/boot/bootdev-uclass.c:592-654 | a scan sent back this way neither ends nor gets past the failing bootdev, however many searches follow |
| BootflowProbe.SentBack | u-boot-orangepi_3lts/boot/bootdev-uclass.c:592-654 | counterexample: two bootdevs of one priority, the second failing; after the first comes the first again |
| BootflowProbe.Search | u-boot-orangepi_3lts/boot/bootdev-uclass.c:592-654 | the loop with its failing-probe branch, stopped after a number of turns, is where the specified search is |
| BootflowLists.Store.Add | u-boot-orangepi_3lts/boot/bootdev-uclass.c:36-60 | appends to both lists; every bootdev's list stays the global one filtered to it, in order |
| BootflowLists.Store.Remove | u-boot-orangepi_3lts/boot/bootflow.c:435-443 | unlinks from both lists, same invariant |
| BootflowLists.Store.ClearBootdev | u-boot-orangepi_3lts/boot/bootdev-uclass.c:560-571 | the draining loop ends; the global list keeps exactly the others in order |
| BootflowLists.Store.ClearAll | u-boot-orangepi_3lts/boot/bootstd-uclass.c:44-53 | the draining loop ends; all lists are empty |
| BootflowLists.OfWithout | u-boot-orangepi_3lts/boot/bootflow.c:435-443 | unlinking commutes with filtering to one bootdev |
| PxeMenus.RoundTrip | u-boot-orangepi_3lts/boot/pxe_utils.c:1053-1437 | for every menu of well-formed statements (title, background, timeout, prompt, default, timeout label, labels, comments, unknown words, plain and menu includes of files written the same way): parsing its text gives exactly the title, background, numbers, default and labels in order that the statements describe, includes expanded in place, if they nest no deeper than fifteen, and fails as too deep otherwise |
| PxeMenus.FileRead | u-boot-orangepi_3lts/boot/pxe_utils.c:1316-1393 | the same for a file at any nesting level, on top of any menu read so far |
| PxeMenus.LabelRead | u-boot-orangepi_3lts/boot/pxe_utils.c:1200-1300 | a label together with the menu lines it swallows is read into an entry that holds exactly its own lines |
| PxeMenus.IncludeStatement | u-boot-orangepi_3lts/boot/pxe_utils.c:1053-1079 | an include goes on with the menu that the file leaves, or fails as the file does |
| PxeMenus.MenuIncludeStatement | u-boot-orangepi_3lts/boot/pxe_utils.c:1091-1124 | a menu include does the same, with the prompt set first |
| PxeMenus.IncludeMissing | u-boot-orangepi_3lts/boot/pxe_utils.c:1053-1079 | an include of a file that is not there fails the parse |
| PxeRoundTrip.SpecRead | u-boot-orangepi_3lts/boot/pxe_utils.c:1200-1300 | a written label is read back whatever label or end follows: its last token is put back |
| PxeRoundTrip.FieldsRead | u-boot-orangepi_3lts/boot/pxe_utils.c:1200-1300 | all lines of a label are read into one entry that holds exactly them |
| PxeRoundTrip.LineRead | u-boot-orangepi_3lts/boot/pxe_utils.c:1200-1300 | a written line is read as the field it was written from |
| PxeRoundTrip.KernelSplitIff | u-boot-orangepi_3lts/boot/pxe_utils.c:1165-1190 | the kernel text is cut before its first "#" and the pieces join to the whole, if and only if it has one or no configuration was named before: an earlier one stays with a later kernel |
| PxeRoundTrip.RepeatedValue | u-boot-orangepi_3lts/boot/pxe_utils.c:1226-1293 | a second ramdisk, device tree, directory or overlay list leaves its value unread: it stands where a keyword should and ends the label if and only if it is none of a label |
| PxeRoundTrip.SecondTreeEnds | u-boot-orangepi_3lts/boot/pxe_utils.c:1226-1293 | counterexample: a second device tree line "fdt b" ends the label |
| PxeRoundTrip.MenuOtherTurn | u-boot-orangepi_3lts/boot/pxe_utils.c:1129-1159 | a title, background or include line right after a label is passed over by that label |
| PxeProofs.DefaultLabelLaw | u-boot-orangepi_3lts/boot/pxe_utils.c:1316-1437 | for every text that parses, well-formed or not, includes included: the default is the last top-level default or timeout label met, else the first label marked as default, else unset |
| PxeProofs.FileSettles | u-boot-orangepi_3lts/boot/pxe_utils.c:1316-1393 | the same as an invariant of every file at every nesting level |
| PxeProofs.ParseKeeps | u-boot-orangepi_3lts/boot/pxe_utils.c:1414-1437 | for newline-terminated files and any includes, nothing is read past a terminator |
| PxeLines.StatementOverrunIff | u-boot-orangepi_3lts/boot/pxe_utils.c:1330-1392 | a statement reads past the end if and only if it is "prompt" or "menu" with nothing behind it in the text, or a label or included file inside it does |
| PxeLines.LabelTurnOverrunIff | u-boot-orangepi_3lts/boot/pxe_utils.c:1221-1298 | a line of a label does if and only if it is a bare "menu" or "menu label" with nothing behind it in the text |
| PxeLines.PromptFailsIff | u-boot-orangepi_3lts/boot/pxe_utils.c:1371-1391 | a prompt fails the whole parse if and only if no value stands on its line, by reading past the end if nothing follows at all |
| PxeLines.BarePromptFails | u-boot-orangepi_3lts/boot/pxe_utils.c:1371-1391 | counterexample to the comment: a file that starts with a bare prompt line does not parse |
| PxeLines.MissingValueFails | u-boot-orangepi_3lts/boot/pxe_utils.c:1330-1392 | a timeout, label or include without a value on its line fails the parse |
| PxeLines.LabelValueMissing | u-boot-orangepi_3lts/boot/pxe_utils.c:1226-1298 | so does a keyword inside a label, except one that has its value already and keeps the first; arguments without a text are read through a null address unless arguments or a ramdisk were set before |
| PxeLines.DefaultUndefinedIff | u-boot-orangepi_3lts/boot/pxe_utils.c:1352-1363 | a default or timeout label goes on to use a name its line did not set, unset or released by then, if and only if none stands on its line |
| PxeLines.BareDefaultUndefined | u-boot-orangepi_3lts/boot/pxe_utils.c:1352-1363 | counterexample: a file that starts with a bare default line |
| PxeLines.MenuLineIff | u-boot-orangepi_3lts/boot/pxe_utils.c:1091-1124 | a menu line takes the next line with it if and only if nothing follows the keyword, and one with another word than title, background or include changes nothing |
| PxeLines.LabelMenuLineIff | u-boot-orangepi_3lts/boot/pxe_utils.c:1129-1159 | inside a label the next line is lost if and only if nothing follows "menu" or "menu label" |
| PxeLines.BareMenuLoses | u-boot-orangepi_3lts/boot/pxe_utils.c:1091-1124 | counterexample: whatever stands on the line after a bare menu line is never looked at |
| PxeLines.WhiteLineStops | u-boot-orangepi_3lts/boot/pxe_utils.c:1221-1293 | white space at the start of a line ends the label if and only if it is not a line end |
| PxeLines.TurnStopsIff | u-boot-orangepi_3lts/boot/pxe_utils.c:1226-1293 | a label ends at a token if and only if the token is none of a label's own |
| PxeLines.CarriageReturnStops | u-boot-orangepi_3lts/boot/pxe_utils.c:1226-1293 | counterexample: an empty line ended by carriage return and line feed ends a label |
| PxeProofs.TokenKeeps | u-boot-orangepi_3lts/boot/pxe_utils.c:937-977 | in terminated text a token other than the end is always there, and only a line end can be last |
| PxeProofs.UnterminatedOverruns | u-boot-orangepi_3lts/boot/pxe_utils.c:1371-1376 | counterexample: a bare prompt as unterminated last line reads on past the terminator |
| PxeReader.MenuFile.ReadFile | u-boot-orangepi_3lts/boot/pxe_utils.c:1316-1393 | the recursive-descent reader ends for every set of files, self-including ones too, and builds the menu of the specified parse |
| PxeReader.MenuFile.ReadStatement | u-boot-orangepi_3lts/boot/pxe_utils.c:1330-1392 | one top-level statement moves cursor and menu as specified, errors included |
| PxeReader.MenuFile.ReadLabel | u-boot-orangepi_3lts/boot/pxe_utils.c:1200-1300 | the label loop ends before the first foreign token, leaving the cursor on it |
| PxeReader.MenuFile.ReadLabelTurn | u-boot-orangepi_3lts/boot/pxe_utils.c:1221-1298 | one line of a label |
| PxeReader.MenuFile.ReadLabelMenu | u-boot-orangepi_3lts/boot/pxe_utils.c:1129-1159 | a menu line inside a label sets default or title |
| PxeReader.MenuFile.ReadMenu | u-boot-orangepi_3lts/boot/pxe_utils.c:1091-1124 | a top-level menu line sets title or background, or includes a file |
| PxeReader.MenuFile.ReadInclude | u-boot-orangepi_3lts/boot/pxe_utils.c:1053-1079 | an include parses the file one level deeper into the same menu, which is then the one IncludeStatement describes |
| PxeReader.MenuFile.ReadDefault | u-boot-orangepi_3lts/boot/pxe_utils.c:1352-1363 | a top-level default or timeout label replaces the default; without a label the code uses a name that is unset or released, reported as undefined |
| PxeReader.MenuFile.ReadNumber | u-boot-orangepi_3lts/boot/pxe_utils.c:1024-1040 | a timeout or prompt takes a 32-bit number, and each way of missing one is told apart |
| PxeReader.NextToken | u-boot-orangepi_3lts/boot/pxe_utils.c:937-977 | the cursor-moving lexer gives the specified token and position |
| PxeReader.GetString | u-boot-orangepi_3lts/boot/pxe_utils.c:865-908 | copies up to the delimiter, lower-cased in keyword mode |
| PxeReader.GetKeyword | u-boot-orangepi_3lts/boot/pxe_utils.c:916-926 | the table search gives each of the 22 words its meaning, and any other text stands for itself |
| PxeReader.SkipToToken | u-boot-orangepi_3lts/boot/pxe_utils.c:943-954 | moves over blanks and one comment |
| PxeReader.NextLiteral | u-boot-orangepi_3lts/boot/pxe_utils.c:1004-1019 | the rest of the line, or no literal at its end |
| PxeReader.EolOrEof | u-boot-orangepi_3lts/boot/pxe_utils.c:987-991 | stops on a line end or the terminator and nothing before |
| PxeTokens.KeywordToken | u-boot-orangepi_3lts/boot/pxe_utils.c:800-824 | each of the 22 words, spelt out, is read as what it stands for when white space or the end follows |
| PxeTokens.LookupExact | u-boot-orangepi_3lts/boot/pxe_utils.c:800-824 | the table gives each of the 22 words, spelt out, its own meaning, and recognises no other text |
| PxeTokens.BlanksSkipped | u-boot-orangepi_3lts/boot/pxe_utils.c:943-946 | spaces and tabs in front of a token change nothing |
| PxeTokens.LiteralToken | u-boot-orangepi_3lts/boot/pxe_utils.c:937-977 | a value in literal mode is read up to its line end |
| PxeValues.KeywordAnyCase | u-boot-orangepi_3lts/boot/pxe_utils.c:865-926 | each word is recognised in any mixture of cases |
| PxeValues.IntegerRoundTrip | u-boot-orangepi_3lts/boot/pxe_utils.c:1024-1040 | a decimal rendering is read back if and only if it fits 32 bits, and so with a minus sign |
| PxeValues.NumberRoundTrip | u-boot-orangepi_3lts/boot/pxe_utils.c:1024-1040 | decimal and prefixed hexadecimal numerals of any number are read back, signed or not |
| PxeValues.DigitsStop | u-boot-orangepi_3lts/boot/pxe_utils.c:1024-1040 | reading a number stops at the first character that is no digit of its base |
| PxeValues.AfterInitrdIs | u-boot-orangepi_3lts/boot/pxe_utils.c:1240-1243 | the text found is what follows the first occurrence, and nothing is found if and only if there is none |
| PxeValues.RamdiskFromArguments | u-boot-orangepi_3lts/boot/pxe_utils.c:1236-1249 | an argument line sets the ramdisk to the text between its first "initrd=" and the next space unless one is set; it is handled if and only if that space is there when it is needed |
| PxeValues.RamdiskAtEnd | u-boot-orangepi_3lts/boot/pxe_utils.c:1236-1249 | counterexample: a ramdisk named at the end of the line |
| AndroidAb.CompareMeans | u-boot-orangepi_3lts/boot/android_ab.c:166-182 | the three-way result orders slots by priority, then success, then tries |
| AndroidAb.BestIsUnique | u-boot-orangepi_3lts/boot/android_ab.c:247-269 | the loop's choice is the only bootable slot that no bootable slot beats and no earlier one ties |
| AndroidAb.SaidRuleIff | u-boot-orangepi_3lts/boot/android_ab.c:229-269 | the code picks the slot its comment asks for if and only if that slot has tries left; one it does not pick has booted before |
| AndroidAb.BootedSlotRefused | u-boot-orangepi_3lts/boot/android_ab.c:229-269 | counterexample: a slot that has booted but has no tries left is not selected |
| AndroidAb.Disk.SelectSlot | u-boot-orangepi_3lts/boot/android_ab.c:184-305 | loading, default, clipping, choice, decrement and write-back give the specified block and answer, and the block is written if and only if it changed |
| AndroidAb.Disk.DefaultControl | u-boot-orangepi_3lts/boot/android_ab.c:43-69 | fills in the default block |
| AndroidAbRuns.SelectLaws | u-boot-orangepi_3lts/boot/android_ab.c:184-305 | a block of another magic or a later version is refused and nothing changes; any other selection leaves a matching CRC on disk and returns a best slot if one can boot; the block then names that slot (a to d), has one try less for it unless it has booted before, at most four slots, and every other field as it was |
| AndroidAbRuns.LoadedLaws | u-boot-orangepi_3lts/boot/android_ab.c:43-69 | a block with a wrong CRC is replaced by the default, field by field; slots beyond the second keep what they hold |
| AndroidAbRuns.DiskNamesSlot | u-boot-orangepi_3lts/boot/android_ab.c:184-305 | after every selection of every run the suffix on disk names the slot returned, or is unchanged when none was |
| AndroidAbRuns.SuffixNames | u-boot-orangepi_3lts/boot/android_ab.c:271-296 | slots are named a, b, c and d, padded with NULs |
| AndroidAbRuns.SoundStays | u-boot-orangepi_3lts/boot/android_ab.c:184-305 | over every run the block stays accepted with the same number of slots |
| AndroidAbRuns.TriesConserved | u-boot-orangepi_3lts/boot/android_ab.c:247-304 | over every run, attempts made plus tries left is constant, so attempts are bounded by the initial tries |
| AndroidAbRuns.SuccessSticks | u-boot-orangepi_3lts/boot/android_ab.c:247-304 | a slot that has booted, once returned, is returned for ever and nothing changes |
| AndroidAbRuns.RoundRobin | u-boot-orangepi_3lts/boot/android_ab.c:247-304 | from n equal fresh slots with T tries, selection k returns slot k mod n for k < n*T, and later ones fail and change nothing |
| AndroidAbRuns.DefaultAlternates | u-boot-orangepi_3lts/boot/android_ab.c:43-69 | a block with a wrong CRC: slots a and b alternate for fourteen boots, then none |
| AndroidAbRuns.LoadedSame | u-boot-orangepi_3lts/boot/android_ab.c:202-214 | a replaced block behaves like the default stored on disk |
| StorageEnumRuns.Enumeration | u-boot-orangepi_3lts/api/api.c:199-229 | from an empty cookie: the network device if any, then storage by group and number, each group up to its first inactive descriptor, then an empty cookie; with all active the flags mark exactly the exhausted groups, all of them at the end |
| StorageEnumRuns.CallGoesOn | u-boot-orangepi_3lts/api/api_storage.c:178-289 | a call with one device's cookie yields the next device, whichever group holds it, or nothing, with the flags exact in both cases |
| StorageEnumRuns.CompleteIff | u-boot-orangepi_3lts/api/api_storage.c:178-266 | nothing is missed if and only if no group has an active device behind an inactive descriptor |
| StorageEnumRuns.HiddenDevice | u-boot-orangepi_3lts/api/api_storage.c:178-266 | counterexample: an inactive first descriptor hides an active second one |
| StorageEnum.Enumerator.Get | u-boot-orangepi_3lts/api/api_storage.c:96-152 | finds the descriptor after the cookie and says whether more follow |
| StorageEnum.Enumerator.EnumGroup | u-boot-orangepi_3lts/api/api_storage.c:178-266 | one group's turn updates cookie and flags as specified |
| StorageEnum.Enumerator.EnumAll | u-boot-orangepi_3lts/api/api_storage.c:278-289 | groups are asked in order until one answers |
| StorageEnum.Enumerator.Reset | u-boot-orangepi_3lts/api/api_storage.c:268-276 | forgets all started and ended marks |
| StorageEnum.Enumerator.Next | u-boot-orangepi_3lts/api/api.c:199-229 | an empty cookie restarts; network precedes storage; the end empties the cookie |
| StorageEnum.TypeFrom | u-boot-orangepi_3lts/api/api_storage.c:157-167 | the group found is the first that has the address, and none is found if and only if no group has it |
| SilentConsole.FixupSilentLinux | u-boot-orangepi_3lts/boot/bootm.c:509-569 | succeeds if and only if there is room; then the buffer holds the silenced line although source and output share it, or is unchanged as text when silencing does not apply |
| SilentConsole.ReplaceArg | u-boot-orangepi_3lts/boot/bootm.c:545-555 | the argument is replaced in place, the tail being copied from where it is still intact |
| SilentConsole.AppendArg | u-boot-orangepi_3lts/boot/bootm.c:556-557 | the line, copied down over itself, is followed by a space and the null console |
| SilentConsole.OwnArgIff | u-boot-orangepi_3lts/boot/bootm.c:538-565 | the silenced line holds the null console as an argument of its own if and only if the first text "console=" starts an argument, there is none, or the line held it as one before |
| SilentConsole.InsideArgument | u-boot-orangepi_3lts/boot/bootm.c:538-565 | counterexample: "netconsole=a" becomes "netconsole=ttynull" |
| SilentConsole.Idempotent | u-boot-orangepi_3lts/boot/bootm.c:538-565 | silencing twice is silencing once |
| SilentConsole.SilencedIs | u-boot-orangepi_3lts/boot/bootm.c:538-565 | only the value of the first console argument changes, up to the space or end after it |
| SilentConsole.SilencedAdds | u-boot-orangepi_3lts/boot/bootm.c:538-565 | without one the null console is added at the end |
| MemmoveWd.MoveInChunks | u-boot-orangepi_3lts/boot/image-board.c:171-199 | for every overlap and positive chunk size memory ends up as after one move |
| MemmoveWd.Memmove | u-boot-orangepi_3lts/boot/image-board.c:196-198 | a move leaves the old source at the target and all else alone, overlap or not |
| Eeprom.Device.Write | u-boot-orangepi_3lts/cmd/eeprom.c:144-201 | chunked writing to a device whose counter wraps in its page equals one flat store, each burst within one page and the transfer limit |
| Eeprom.Device.Read | u-boot-orangepi_3lts/cmd/eeprom.c:144-183 | chunked reading returns the flat range |
| Eeprom.Device.WriteThenRead | u-boot-orangepi_3lts/cmd/eeprom.c:175-201 | what was written is read back and nothing else has changed |
| Eeprom.BurstStaysInPage | u-boot-orangepi_3lts/cmd/eeprom.c:87-108 | for pages up to 256 bytes a burst is the longest one that stays in its page, within what is left and 128 bytes |
| Eeprom.PagesUpTo256 | u-boot-orangepi_3lts/cmd/eeprom.c:87-108 | bursts always stay in their page if and only if pages have at most 256 bytes |
| Eeprom.LastByteRunsOn | u-boot-orangepi_3lts/cmd/eeprom.c:87-108 | counterexample for larger pages: a burst from the last byte of a page runs on |
| Clone.Cloner.Run | u-boot-orangepi_3lts/cmd/clone.c:72-110 | at every exit the first `wrcnt` destination bytes are the source's and `wrcnt` <= `rdcnt`; it succeeds if and only if every transfer made moves blocks and both devices hold the request rounded up to whole buffers, and then both counts are that; nothing is transferred after an error |
| Clone.Cloner.FillBuffer | u-boot-orangepi_3lts/cmd/clone.c:79-95 | short reads add up to a full buffer of consecutive source bytes, if and only if every read moves blocks and the source is long enough |
| Clone.Cloner.DrainBuffer | u-boot-orangepi_3lts/cmd/clone.c:96-109 | short writes extend the true copy until the buffer is written, if and only if every write moves blocks and the destination is long enough |
| Clone.RoundedUpUnique | u-boot-orangepi_3lts/cmd/clone.c:72-110 | the only multiple of the buffer size a run can end at |
| FitOverlay.ApplyOverlays | u-boot-orangepi_3lts/boot/image-fit.c:2382-2479 | the loop that rewrites its own index, bound and configuration attempts exactly the planned overlays, in order, stopping early if and only if one is refused |
| FitOverlay.SplitArgument | u-boot-orangepi_3lts/boot/image-fit.c:2355-2365 | the copy is cut in place: the first piece stays in front, the others follow, and the first names the base unless it is empty before a mark |
| FitOverlay.JoinedSplits | u-boot-orangepi_3lts/boot/image-fit.c:2412-2417 | mark-free names joined by marks are exactly the pieces found |
| FitOverlay.ArgumentPlan | u-boot-orangepi_3lts/boot/image-fit.c:2355-2479 | whatever names are joined into an argument, it asks for the base's list from its second entry on and then each extra configuration's list |
| FitOverlay.NamesAt | u-boot-orangepi_3lts/boot/image-fit.c:2382-2479 | the overlays asked for by name are the list's entries in order |
| FitOverlay.ApplyArgument | u-boot-orangepi_3lts/boot/image-fit.c:2355-2479 | cutting the argument in place and applying it attempts exactly what its pieces ask for, the default configuration standing in for an empty first piece |
| FitOverlay.PiecesRejoin | u-boot-orangepi_3lts/boot/image-fit.c:2412-2417 | cutting at the marks loses nothing: pieces hold no mark and join to the argument |
| FlashChecksum.ComputeCrc | u-boot-orangepi_3lts/cmd/armflash.c:38-57 | the loop gives the complement of the end-around-carry sum, or 0 for a length that is no whole number of words |
| FlashChecksum.SumIsRepresentative | u-boot-orangepi_3lts/cmd/armflash.c:38-57 | the 32-bit running sum is the representative in 1..2^32-1 of the total modulo 2^32-1, 0 only for a zero total |
| FlashChecksum.ZeroOnlyForZeros | u-boot-orangepi_3lts/cmd/armflash.c:38-57 | the sum is 0 if and only if all words are |
| FlashChecksum.OrderFree | u-boot-orangepi_3lts/cmd/armflash.c:38-57 | any reordering of the words has the same sum, as section 2 of RFC 1071 observes for 16 bits |
| FlashChecksum.StoredChecksumCancels | u-boot-orangepi_3lts/cmd/armflash.c:137-142 | storing the checksum in place of a zero word, anywhere, makes the whole checksum 0 |

## Left out

- `fdt_next_region`, `fdt_include_supernodes` and `fdt_add_alias_regions`: the resumable form loses its last node and rescans a truncated path between calls, so it does not equal the one pass.
- The effect of a malformed tag that the device-tree library reports, and offsets above the integer range: tags have given sizes.
- Hunting and devices bound during a scan: the list of bootdevs is fixed.
- BootflowIter.Iterator.FindByPrio: takes probes to succeed, because the search need not end when one fails; BootflowProbe.Search models that case.
- Probes that fail elsewhere, and a scan called again after it has ended.
- A global bootmeth that reports no more partitions: the code then leaves the global phase in an unintended state.
- A custom order of bootmeths, and the file-system work of one check: a check is an answer from outside.
- PxeProofs.ParseKeeps: gives a sufficient condition for whole files; the exact condition is stated for each statement, label line and include.
- Where included menu files are placed in memory, and the booting of a label; each file has its own text.
- PxeMenus.RoundTrip: covers labels whose keywords are not repeated and arguments that name no ramdisk; RepeatedValue, KernelSplitIff and RamdiskFromArguments cover those.
- Block reads and writes of the A/B metadata that fail, and the check that the structure fits the block; the CRC is an uninterpreted function.
- StorageEnumRuns.Enumeration: assumes distinct descriptors and a fixed set of devices, as the enumerator itself does.
- Eeprom.Device.Write: does not model the status code of a transfer, ferroelectric memory without pages, or offsets that overflow 32 bits.
- Clone.Cloner.Run: does not model a transfer of no blocks (the code then tries for ever), size defaults or timing.
- FitOverlay.ApplyOverlays: starts from the resolved base configuration; looking up the default one, loading and relocating the base tree are not modelled.
- Allocation failures, logging and address mapping.
- Image loading, decompression, hashing, signatures, ciphers, memory reservation, EFI, networking, menus on screen and the remaining commands: calls into other libraries, or input and output without an algorithm of their own.
