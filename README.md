# rbuilder in Dafny

rbuilder renders spreadsheet reports from a template workbook. This model covers how `Template.Render` does it:

- **Static placeholders.** Placeholder cells outside range rows are collected as `##s:r:c##text` records (`renderStatic`). The template engine evaluates them, and each evaluated record is written back into its cell by the type-aware writer `setValue`.
- **Range rows.** Rows that hold a `{{range}}` are collected as `##begin:s/r` headers followed by `text<<col>>` assignments (`renderRange`). The template engine expands them.
- **Reconciliation.** A loop replaces each range row by as many copies as its block has lines and fills the copies from the evaluated lines. It keeps a per-sheet offset map of the rows earlier blocks added or removed.

The row splices `delRow`, `insertRows`, `insertRowsOld` and `appendRows`, the rename pass `ReplaceVariableName`, and the example program's merge pass `mergeCells` are modelled as well.

## Layout

| file | module | contents |
|---|---|---|
| outcomes.dfy | `Outcomes` | `Result`, `Option`, the engine's errors, and `Layout` |
| go_strings.dfy | `GoStrings` | the parts of Go's `strings` and `strconv` the engine uses |
| codec.dfy | `Codec` | the tag formats and their parsers (`extractSRC`, `parseRangeLine`) |
| grid.dfy | `Grid` | the workbook class, `setValue`, and the row splices |
| scan.dfy | `Scan` | the two tag scans |
| reconcile.dfy | `Reconcile` | the reconciliation loop |
| reconcile_facts.dfy | `ReconcileFacts` | lemmas about the loop |
| render.dfy | `Render` | `renderStatic`, `renderRange` and `Render` |
| merge.dfy | `Merge` | `mergeCells` from `example/main.go` |

### How the model is built

- **Workbook.** The workbook is the class `Grid.Workbook`. Its field `sheets` is a sequence of sheets, each a sequence of rows of cells, and its methods update it in place.
- **Loops.** Each loop of the source is a method with loop invariants. It is proved against a specification function, which the lemmas then reason about.
- **Panics.** A Go run-time panic (an index or slice out of range, or `panic(err)`) becomes the error value `Panic`.
- **Layout.** Three places behave differently from what the code evidently intends (see Findings). The parameter `Layout` selects between them:
  - `AsWritten` follows the code;
  - `Intended` follows the corrected reading.

## Model

| member | source | states |
|---|---|---|
| GoStrings.Index | rbuilder.go:399 | `strings.Index` gives -1 exactly when the pattern never occurs, and otherwise an occurrence with none before it |
| GoStrings.IndexZeroIsPrefix | example/main.go:79 | the test `strings.Index(val, "<<") != 0` is the same as "val does not start with `<<`" |
| GoStrings.SplitJoin | rbuilder.go:142 | the parts of `strings.Split` glued back with the separator give the input, and no part holds the separator |
| GoStrings.SplitN | rbuilder.go:426 | `strings.SplitN` gives between 1 and n parts that glue back to the input; every part but the last is free of the separator, and so is the last when fewer than n parts came out |
| GoStrings.ReplaceFirst | rbuilder.go:104 | `strings.Replace(…, 1)` leaves text without the target unchanged; with an occurrence, the result is the target's length shorter and the replacement's length longer |
| GoStrings.ReplaceFirstIsSplitNJoin | rbuilder.go:104 | the result equals `strings.SplitN(s, target, 2)` joined with the replacement: the text before the first occurrence (which holds no target), then the replacement, then the rest untouched |
| GoStrings.ReplaceAllIsSplitJoin | rbuilder.go:729 | `strings.Replace(…, -1)` equals cutting at every occurrence of the target and joining with the replacement |
| GoStrings.ReplaceAllWithoutMatch | rbuilder.go:729 | text without the target is left unchanged |
| GoStrings.Atoi | rbuilder.go:170 | `strconv.Atoi` yields only 64-bit values, rejects the empty string, is non-negative without a leading '-', and its error names the rejected text |
| GoStrings.Decimal | rbuilder.go:100 | `%d` of a natural number is a non-empty string of digits |
| GoStrings.DecimalValue | rbuilder.go:100 | the digits of `%d` read back as the number printed |
| GoStrings.DecimalRoundTrip | rbuilder.go:170 | `Atoi` of a number printed with `%d` is that number |
| GoStrings.DecimalHasOnly | rbuilder.go:100 | a printed number contains no pattern that has a non-digit |
| Codec.ExtractSRC | rbuilder.go:424-448 | fails with the "invalid input" error exactly when the input lacks two colons; every other failure is the first part `Atoi` rejects; the three values are 64-bit |
| Codec.ExtractSRCRoundTrip | rbuilder.go:424-448 | coordinates printed as `%d:%d:%d` are read back as the same sheet, row and column |
| Codec.ExtractSRCRejects | rbuilder.go:432-445 | the error reported is the one for the sheet part, else the row part, else the column part, in that order |
| Codec.ExtractSRCAccepts | rbuilder.go:426-447 | with colon-free sheet and row parts and all three parts integers, the result is those three integers, the column part being everything after the second colon |
| Codec.ParseStaticLine | rbuilder.go:319-334 | a line without the leading `##` is skipped; one without a closing `##` fails with the "not found closing ##" error; a record's coordinates are what `extractSRC` reads between the two `##`, and its text is everything after the closing one |
| Codec.StaticRecordRoundTrip | rbuilder.go:296-334 | every record the static scan writes reads back as its own position and text, whatever the text holds |
| Codec.ParseBegin | rbuilder.go:167-179 | a block header yields 64-bit sheet and row numbers; it fails with an `Atoi` error or, when there is no '/', a panic |
| Codec.BeginRoundTrip | rbuilder.go:100-179 | the header `##begin:%d/%d` the range scan writes is recognised by the prefix test and parsed back as the same sheet and row |
| Codec.CloseAt | rbuilder.go:405 | the ">>" closing an assignment is a real occurrence of ">>"; under `Intended` it comes after the "<<" |
| Codec.Assign | rbuilder.go:398-418 | text without "<<" assigns nothing; assignments only add keys to the map; the only failure is a panic |
| Codec.AssignAt | rbuilder.go:405-415 | one assignment only adds keys; a ">>" before its column, or a column that is no integer, panics |
| Codec.ParseRangeLine | rbuilder.go:392-421 | the loop, which reassigns the remaining text, computes the map `Assign` defines, or panics when that does |
| Codec.AssignPiece | rbuilder.go:399-415 | one assignment `text<<d>>` whose column parses stores `text` under that column and resumes right after its ">>" |
| Codec.AssignEntry | rbuilder.go:107-114 | the assignment the range scan prints (`%s<<%d>>`) is read back into that column |
| Codec.AssignRoundTrip | rbuilder.go:392-421 | a range line of printed assignments with readable texts is parsed back into exactly the map those assignments build, later columns overriding earlier ones |
| Codec.EndMarkerInRangeRowPanics | rbuilder.go:405-408 | the line `a>><<0>>` panics as written, and as intended assigns `a>>` to column 0 |
| Grid.WriteCell | rbuilder.go:364-389 | the number format and merge spans are kept; a `@` cell takes the text verbatim; otherwise a number that parses is stored as a number, a date cell is left alone, and anything else becomes a string |
| Grid.IntBranchUnreachable | rbuilder.go:369-379 | since ParseFloat accepts every integer ParseInt accepts, the integer branch never decides the result |
| Grid.Reach | rbuilder.go:361 | `Sheet.Cell(r, c)` grows the sheet to row r and the row to column c with blank cells, keeping every existing cell |
| Grid.CellAt | rbuilder.go:361 | the cell read is the existing one, or a blank cell past the end |
| Grid.Written | rbuilder.go:359-390 | after `setValue` the target cell holds the writer's result; every other existing cell is unchanged, and every added cell is blank |
| Grid.Deleted | rbuilder.go:528 | one row fewer; the rows before r stay, and the rows after it move up by one |
| Grid.Copies | rbuilder.go:744-763 | n rows, each equal to the template row |
| Grid.Inserted | rbuilder.go:744-763 | n more rows: the rows before `at` stay, the n copies follow, then the old rows from `at` on, shifted by n |
| Grid.InsertedOneMore | rbuilder.go:761 | one more copy spliced in at the same position extends the run of copies by one |
| Grid.DoubledCells | rbuilder.go:560-571 | insertRowsOld's copy of a row holds each cell twice, side by side |
| Grid.OldCopyDuplicatesCells | rbuilder.go:564-570 | a one-cell row is copied as two cells |
| Grid.Overwritten | rbuilder.go:594-597 | the tail shared with the appended slice reads the new rows where they were written, and the old rows beyond them |
| Grid.OldSpliced | rbuilder.go:594-601 | insertRowsOld's result keeps the rows before the start and then holds the new rows, with one row per new row added |
| Grid.OldSpliceLosesRow | rbuilder.go:594-601 | as written, the row after the inserted copies is a copy again, where the intended splice has the old row `at` there; the two differ whenever that row differs from the copy |
| Grid.OldSpliceExample | rbuilder.go:594-601 | rows a, b, c with one copy x at 1 become a, x, x, c as written and a, x, b, c as intended |
| Grid.RenameCell | rbuilder.go:720-732 | a cell that is empty, is no placeholder or lacks the name is unchanged; otherwise it becomes a string cell holding the text with every occurrence renamed |
| Grid.RenameCellSplitJoin | rbuilder.go:729 | the renamed text is the text cut at every occurrence of the old name and joined with the new one, and there is at least one cut |
| Grid.RenamedRow | rbuilder.go:719-733 | every cell of the row is renamed on its own |
| Grid.RenamedSheet | rbuilder.go:718-734 | every row of the sheet is renamed on its own |
| Grid.RenameNextCell | rbuilder.go:719-733 | renaming cell c extends a row renamed up to c into one renamed up to c + 1 |
| Grid.RenameNextRow | rbuilder.go:718-734 | renaming row r extends a sheet renamed up to r into one renamed up to r + 1 |
| Grid.RenameCellStep | rbuilder.go:724-732 | the loop body's test and write on cell c are the same as renaming that cell |
| Grid.Workbook.constructor | rbuilder.go:62-72 | the report starts with the template's sheets |
| Grid.Workbook.SetValue | rbuilder.go:359-390 | panics exactly when the sheet is missing or the row or column is negative, and then changes nothing; otherwise only sheet s changes, to the written sheet |
| Grid.Workbook.DelRow | rbuilder.go:514-531 | the "invalid scheet number" and "invalid row in scheet" errors, or a panic on a negative index, each leaving the workbook unchanged; on success row r of sheet s is removed and nothing else changes |
| Grid.Workbook.InsertRows | rbuilder.go:737-780 | no copies for cnt <= 0; a panic on a start outside the sheet; otherwise cnt copies of the row at startR and nothing else changed |
| Grid.Workbook.InsertRowsOld | rbuilder.go:533-616 | each of the four guard outcomes leaves the workbook unchanged; succeeds exactly for an existing sheet and row, and then sheet toS is the as-written splice of the doubled-cell copies |
| Grid.Workbook.CopyRowOld | rbuilder.go:554-572 | the copied row is the row with every cell doubled |
| Grid.Workbook.AppendRows | rbuilder.go:456-512 | each guard error in the source's order and the panics of negative indexes, each leaving this workbook unchanged; on success rows fromR..toR of the source sheet are appended to sheet toS, nothing for fromR > toR |
| Grid.Workbook.ReplaceVariableName | rbuilder.go:714-735 | sheet s is replaced by its renaming from "." + from to "." + to, and no other sheet changes |
| Grid.Workbook.RenameRow | rbuilder.go:719-733 | row r of sheet s is renamed, and nothing else changes |
| Scan.RangeCellsStep | rbuilder.go:94-116 | a plain cell adds nothing; an end cell adds its text and the block close, then ends the row; any other placeholder adds its header and its assignment |
| Scan.ScanRange | rbuilder.go:87-120 | the walk over sheets, rows and cells builds the range blob `RangeBlob` |
| Scan.ScanRangeRow | rbuilder.go:93-118 | the labelled cell loop appends the row's part of the range blob |
| Scan.ScanStatic | rbuilder.go:281-300 | the walk builds the static blob `StaticBlob`, leaving each row at its first range cell |
| Scan.ScanStaticRow | rbuilder.go:284-297 | the labelled cell loop appends the row's records up to its first range cell |
| Scan.TagsOnly | rbuilder.go:96 | the sheets with the text of every non-placeholder cell erased, shape and placeholders kept |
| Scan.SameTagsCells | rbuilder.go:94-116 | rows whose placeholders agree give the same blobs from cell c on |
| Scan.SameTagsRows | rbuilder.go:92-118 | sheets whose rows agree that way give the same blobs from row r on |
| Scan.SameTagsSheets | rbuilder.go:91-119 | workbooks whose sheets agree that way give the same blobs from sheet s on |
| Scan.TagsOnlyBlobs | rbuilder.go:96 | both scans read placeholder cells only: erasing every other cell's text changes neither blob |
| Scan.NoTagsCells | rbuilder.go:94-116 | cells without placeholders add nothing to either blob |
| Scan.NoTagsRows | rbuilder.go:92-118 | rows without placeholders add nothing to either blob |
| Scan.NoTagsSheets | rbuilder.go:91-119 | sheets without placeholders add nothing to either blob |
| Scan.NoTagsNoBlobs | rbuilder.go:87-120 | a workbook without placeholders hands the evaluator two empty blobs |
| Scan.TagEntries | rbuilder.go:114 | one entry per placeholder cell of the row part, with the cell's text and column |
| Scan.InnerCellsEncode | rbuilder.go:114 | for a row part with neither a range cell nor an end cell, the scanner's output is the encoding of one assignment per placeholder cell |
| Scan.InnerRowReadBack | rbuilder.go:114 | a row with neither a range cell nor an end cell, left unevaluated and with readable texts, is parsed back into each placeholder's text under its own column |
| Scan.SkipPlain | rbuilder.go:94-96 | cells before a row's first placeholder add nothing to the range blob |
| Scan.OpenCellAdds | rbuilder.go:98-114 | the cell opening a range adds the block header and its own assignment before the rest of the row |
| Scan.InnerUpToEncode | rbuilder.go:114 | between the range cell and the end cell, the scan writes one assignment per placeholder in column order, then whatever the end cell writes |
| Scan.RangeCellEnd | rbuilder.go:103-110 | an end cell naming no range adds its text without the marker, then the closing line |
| Scan.EndCellAdds | rbuilder.go:103-112 | the scan of a row stops at its end cell, after that cell's text and the closing line |
| Scan.RangeRowEncode | rbuilder.go:94-114 | a range row (range cell at a, end cell at e, plain placeholders between) adds exactly its block header, one range line, and the closing line |
| Scan.RangeLineEntries | rbuilder.go:107-114 | that range line is the encoding of the row's entries: the range cell, the placeholders after it, and the end cell's remaining text |
| Scan.RangeRowReadBack | rbuilder.go:392-421 | with the row left unevaluated and readable texts, `parseRangeLine` reads a range row's line back as the range cell's text under its column, each placeholder's under its own, and the end cell's text without "{{end.}}" under the end column |
| Scan.TagEntriesFrom | rbuilder.go:114 | every entry names a column at or after c that holds a placeholder with that text |
| Reconcile.SomeKey | rbuilder.go:233 | a non-empty key set has an element |
| Reconcile.OnlyKey | rbuilder.go:233 | a key whose removal empties the set is its only key |
| Reconcile.Least | rbuilder.go:233 | the least column of a non-empty set |
| Reconcile.WriteAll | rbuilder.go:233-235 | writing a set of columns into row r never shortens the sheet, and keeps its length when the row exists |
| Reconcile.WrittenCommute | rbuilder.go:233-235 | two writes to different columns of a row commute |
| Reconcile.WriteAllFirst | rbuilder.go:233-235 | any column may be written first: the order of Go's map iteration does not change the result |
| Reconcile.CellAtOtherColumn | rbuilder.go:233-235 | a write leaves every other column's cell as it was |
| Reconcile.WriteAllCells | rbuilder.go:233-235 | every written column holds the writer's result on its old cell, and no other row changes |
| Reconcile.WriteAllKeeps | rbuilder.go:233-235 | columns outside the written set keep their cells |
| Reconcile.WriteRow | rbuilder.go:230-235 | an empty map changes nothing; a write into a negative row or column panics, and only then |
| Reconcile.WriteCells | rbuilder.go:233-235 | the map loop writes exactly what `WriteRow` defines into sheet s, or panics when it does |
| Reconcile.FirstEnd | rbuilder.go:188-193 | the first "##end" line at or after j, or -1 when there is none |
| Reconcile.BlockCount | rbuilder.go:187-193 | a positive count leaves room for the block and its "##end" line |
| Reconcile.BlockCountEnds | rbuilder.go:187-193 | a positive count is the number of lines before the first "##end"; a zero count means an empty block or no "##end" at all |
| Reconcile.CountBlock | rbuilder.go:187-193 | the loop computes `BlockCount` |
| Reconcile.DropRow | rbuilder.go:514-531 | `delRow` succeeds exactly for an existing sheet and row; the row count drops by one and other sheets stay |
| Reconcile.LineStep | rbuilder.go:230-235 | one block line written into a row fails only with a panic |
| Reconcile.Fill | rbuilder.go:227-238 | writing a block's lines into consecutive rows fails only with a panic |
| Reconcile.FillTurn | rbuilder.go:228-237 | one turn of the block loop fails only with a panic |
| Reconcile.Deletion | rbuilder.go:195-208 | an empty block succeeds exactly when the row to delete exists, and then lowers that sheet's offset by one |
| Reconcile.Expansion | rbuilder.go:211-238 | a missing sheet or row panics; on success that sheet's offset grows by cnt - 1 and the sheet count stays |
| Reconcile.Step | rbuilder.go:164-238 | one header and its block keep the number of sheets |
| Reconcile.StepWith | rbuilder.go:164-238 | a parsed header and its count keep the number of sheets |
| Reconcile.ReconcileFrom | rbuilder.go:155-259 | the loop from line i keeps the number of sheets |
| Reconcile.FillDone | rbuilder.go:228 | a block with no lines left is finished |
| Reconcile.FillFails | rbuilder.go:230-235 | a line that fails ends the block loop with a panic |
| Reconcile.FillNext | rbuilder.go:228-237 | a line written into its row leaves the rest of the block to the next row |
| Reconcile.FillLine | rbuilder.go:229-237 | the loop body parses the line and writes it, changing only sheet s, or fails with the block's panic |
| Reconcile.FillBlock | rbuilder.go:227-238 | the block loop changes only sheet s, into what `Fill` defines, or fails exactly when `Fill` does |
| Reconcile.DeleteBlock | rbuilder.go:195-208 | the empty-block branch computes `Deletion`: the same failure, or the new sheets and offsets |
| Reconcile.ExpandBlock | rbuilder.go:211-238 | the expanding branch computes `Expansion` |
| Reconcile.ApplyBlock | rbuilder.go:181-238 | one block computes `StepWith` for the parsed header |
| Reconcile.ProcessBlock | rbuilder.go:160-238 | the loop body for a header computes `Step` |
| Reconcile.Reconcile | rbuilder.go:155-259 | the whole loop computes `ReconcileFrom` from line 0 with an empty offset map: the same failure, or the final sheets |
| ReconcileFacts.NoHeaderNoChange | rbuilder.go:157-162 | lines without a "##begin:" header leave the workbook as it is |
| ReconcileFacts.LineStepRows | rbuilder.go:230-235 | writing a line into an existing row keeps the sheet's length and every other row |
| ReconcileFacts.FillRowsOutside | rbuilder.go:227-238 | filling existing rows r..r+n-1 keeps the sheet's length and every row outside them |
| ReconcileFacts.WriteAllBlank | rbuilder.go:233-235 | the writes only add blank cells past the row's end, beyond the columns they write |
| ReconcileFacts.WriteAllFills | rbuilder.go:233-235 | after the writes, each column of the parsed line holds its text as `setValue` stores it into the cell that was there, every other existing cell is kept, and added cells are blank |
| ReconcileFacts.LineStepFills | rbuilder.go:230-235 | a line that writes successfully into an existing row fills that row with the line's parsed entries, and the row count stays |
| ReconcileFacts.FillRows | rbuilder.go:227-238 | filling existing rows r..r+n-1 writes line k+l into row r+l |
| ReconcileFacts.FillWithoutAssignments | rbuilder.go:227-238 | block lines without "<<" leave the rows as they are |
| ReconcileFacts.ExpansionShifts | rbuilder.go:211-238 | with the row located correctly, a block of cnt lines leaves other sheets and the rows before it alone, moves every later row down by cnt - 1, and raises the offset by cnt - 1 |
| ReconcileFacts.ExpansionFills | rbuilder.go:217-238 | with the row located correctly, row at+l of the sheet is the template row with line first+l of the block written in, for every l below cnt |
| ReconcileFacts.DeletionShifts | rbuilder.go:195-208 | deleting from the header's own sheet removes exactly that row, moves later rows up, leaves other sheets alone, and lowers the offset by one |
| ReconcileFacts.IntendedBlock | rbuilder.go:181-238 | as intended, a block changes only its own sheet and offset, and the sheet's change in length equals its offset's change |
| ReconcileFacts.IntendedStep | rbuilder.go:164-238 | the same for a header and its block: offset[s] keeps counting exactly the rows added to sheet s |
| ReconcileFacts.UnnamedSheetUnchanged | rbuilder.go:155-259 | as intended, a sheet no header names comes out of the loop unchanged |
| ReconcileFacts.EmptyBlockOnSheetOne | rbuilder.go:195-208 | an empty block whose header names sheet 1 deletes row 0 of sheet 0 as written, and of sheet 1 as intended |
| ReconcileFacts.EmptyBlockDeletesFromSheetZero | rbuilder.go:201 | the same for the header the scanner prints for sheet 1, row 0 |
| ReconcileFacts.FirstOfTwoBlocks | rbuilder.go:181-221 | a first block of two lines on row 0 of a two-row sheet adds a copy of row 0 and sets offset[0] to 1 |
| ReconcileFacts.SecondOfTwoBlocks | rbuilder.go:181-217 | the next block, for template row 1, panics as written, because offset[0] is added twice; as intended it finds that row and leaves the sheet as it is |
| ReconcileFacts.SecondBlockOffsetTwice | rbuilder.go:181-217 | the whole blob: Err(Panic) as written, and the sheet `[r0, r0, r1]` as intended |
| Render.StaticStep | rbuilder.go:317-338 | a line without the leading `##` changes nothing; the number of sheets stays |
| Render.Stored | rbuilder.go:336-338 | a parse error is returned; a skipped line changes nothing; a record for a missing sheet or a negative row or column panics |
| Render.StaticFrom | rbuilder.go:317-354 | the write-back loop keeps the number of sheets |
| Render.StaticTurn | rbuilder.go:317-338 | one turn of the write-back keeps the number of sheets |
| Render.WriteBack | rbuilder.go:319-338 | the loop body computes `StaticStep` on the workbook |
| Render.Store | rbuilder.go:329-338 | a parse failure is returned and a record is handed to `setValue`: the result is `Stored` |
| Render.ApplyStatic | rbuilder.go:316-354 | the write-back loop computes `StaticFrom`: the first failure, or the final sheets |
| Render.StaticPass | rbuilder.go:270-357 | a workbook without sheets fails with "report has not scheets"; a success keeps the number of sheets |
| Render.RenderStatic | rbuilder.go:270-357 | the method computes `StaticPass` on the workbook |
| Render.RangePass | rbuilder.go:87-266 | the range pass keeps the number of sheets |
| Render.RenderRange | rbuilder.go:87-266 | the method computes `RangePass` on the workbook |
| Render.RenderOf | rbuilder.go:60-85 | the static pass followed by the range pass keeps the number of sheets |
| Render.Render | rbuilder.go:60-85 | the report is a fresh workbook; the result is `RenderOf` of the template's sheets |
| Render.StaticRecordWritesBack | rbuilder.go:296-338 | every record the static scan prints for a cell of an existing sheet is written back into that very cell |
| Render.NoRecordsNoChange | rbuilder.go:317-321 | evaluated lines that are no records leave the sheets unchanged |
| Render.RenderWithoutPlaceholders | rbuilder.go:60-85 | a template without placeholders renders to a copy of itself, as written and as intended |
| Merge.MergeCells | example/main.go:69-119 | the pass fails, always with a panic, exactly when `MergeFrom` does, and otherwise leaves the workbook as `MergeFrom` defines |
| Merge.StripKeeps | example/main.go:82-83 | stripping the "<<" of the current cell keeps the pass's invariants |
| Merge.CloseKeeps | example/main.go:100 | recording the spans on the opening cell keeps the invariants |
| Merge.TextsLater | example/main.go:73-75 | texts not reached yet stay unreached further on |
| Merge.MergeFromAllowed | example/main.go:73-118 | from any position, a finished pass keeps the shape and makes only allowed changes |
| Merge.StripAllowed | example/main.go:78-85 | the opening step keeps the shape and makes only allowed changes |
| Merge.CloseStep | example/main.go:91-114 | a closing cell merges the opening cell with spans c - bc and r - br, and closes the region |
| Merge.CloseAllowed | example/main.go:91-114 | the closing step keeps the shape and makes only allowed changes |
| Merge.MergeCellsAllowed | example/main.go:69-119 | every sheet keeps its shape; a text changes only by losing its leading "<<"; types and formats stay; no span changes when no cell holds ">>" |
| Merge.NoOpenerFrom | example/main.go:78-81 | with no cell starting with "<<", every position is skipped |
| Merge.NoOpenerNoChange | example/main.go:78-81 | without an opening cell the pass changes nothing and cannot panic |
| Merge.UnclosedRegionFrom | example/main.go:91-93 | with a region open and no cell holding ">>" from the current position on, the rest of the pass changes nothing, openers included, and cannot panic |
| Merge.OpenRegionSkips | example/main.go:78-93 | while a region is open, the walk passes every cell that does not close it on the same sheet, an opener included, without changing anything |
| Merge.FirstCloserMerges | example/main.go:91-114 | the first cell holding ">>" after an open region's start merges the start cell with the spans up to it and closes the region; if the sheet lacks the start cell the pass panics |
| Merge.OneSheetFrom | example/main.go:73-118 | on one sheet the walk never panics from any position with a valid open region |
| Merge.OneSheetNeverPanics | example/main.go:69-119 | on a workbook of one sheet the pass never panics |
| Merge.HeaderRowMerge | example/main.go:78-114 | "<<Total", "", "x>>" becomes "Total" with a horizontal span of 2, and the closing cell keeps its ">>" |
| Merge.RegionCrossesSheets | example/main.go:71-100 | a region left open on one sheet is closed on the next, and merges the cell at the opening row and column of that later sheet; it panics when that cell does not exist there |

## Left out

- Copying the template through the xlsx binary format is left out. This covers writing and reopening at rbuilder.go:62-72, 499-509, 603-613 and 767-777. The report starts as a copy of the template's sheets. A failure of the xlsx library to write or open is not modelled.
- text/template is left out. Parsing and executing a blob with the data, the static data and the function map (`funcMap`, `AwayFromZero`) is the parameter `eval` of `Render`. Its error is the render's error. `template.Must` panicking on a blob that does not parse counts as such an error.
- Go's number parsing is not modelled. `strconv.ParseFloat` and `strconv.ParseInt` are the parameter `Parsers`. The relation ParseFloat has to ParseInt is the assumption `FloatCoversInt`.
- The xlsx library is not part of this model. The model assumes three things about it:
  - `Sheet.Cell(r, c)` extends the sheet with blank rows and cells;
  - `Row.AddCell` appends a blank cell;
  - `Cell.Merge` records the two spans.
- Cell styles, the date check's cell type and the `Sheet` and `Row` back-references are kept only where the engine reads them.
- Object identity is not modelled. insertRowsOld's copies share one cell object per original cell, and rows are shared between `appendRows`'s source and target. The model has values only.
- `debugf`, `println` and `fmt.Printf` are left out. They only print.
- `CloneRows` and `CloneSheet` (rbuilder.go:650-712) and the example program's command line and saving (example/main.go:1-67) are left out. They are not part of the rendering core.
- `nil` checks of the `*xlsx.File` and `*xlsx.Row` arguments are left out. The model's references are never null.
- The sheet index passed to `insertRows` and `ReplaceVariableName` stands for the `*xlsx.Sheet` the caller hands over. Its existence is a precondition.
- Go's randomised map iteration order is left out. `WriteAll` writes the columns in increasing order, and `Reconcile.WriteAllFirst` proves that any first column gives the same sheet.
- `GoStrings.Atoi`: the syntax error and the range error of `strconv.Atoi` are one error, `NotAnInteger`.
- `Render.StaticPass`: the `println` at rbuilder.go:336 calls `Sheet.Cell`, which grows a sheet whose row or cell is missing. The `setValue` call right after it grows the sheet in the same way, so leaving out the `println` changes nothing. The one at rbuilder.go:289 only reads cells that exist.

## Findings

| source | as written | input that shows it | evidently intended | confidence | as-written member | corrected member |
|---|---|---|---|---|---|---|
| rbuilder.go:405 | the ">>" closing a column is searched from the start of the remaining text | a range row cell "{{.A}}>>" (a merge end marker) evaluated to "a" gives the line `a>><<0>>`, and `s[5:1]` panics | search for ">>" after the "<<" | high (not executed) | Codec.EndMarkerInRangeRowPanics | Codec.AssignRoundTrip |
| rbuilder.go:181, 201, 217 | offset[s] is added to the template row at 181 and again at 201 and 217 | a sheet of rows r0, r1 with a block of two lines for row 0, then a block of one line for row 1: the second block indexes row 3 of a 3-row sheet and panics | add the offset once | high (not executed) | ReconcileFacts.SecondBlockOffsetTwice | ReconcileFacts.IntendedStep |
| rbuilder.go:201 | an empty block deletes its row from sheet 0 | an empty block whose header names row 0 of sheet 1 deletes row 0 of sheet 0 | delete from the header's sheet s | high (not executed) | ReconcileFacts.EmptyBlockDeletesFromSheetZero | ReconcileFacts.UnnamedSheetUnchanged |
| rbuilder.go:594-599 | `rows := Rows[0:startR]` shares the sheet's backing array, so the appends overwrite the rows that should move down | rows a, b, c with one copy x at 1 become a, x, x, c: row b is lost | a fresh slice: a, x, b, c | high (not executed) | Grid.OldSpliceLosesRow | Grid.Inserted |
| rbuilder.go:564-570 | `nrow.AddCell()` already appends the cell, and `append` adds it again | a one-cell row is copied as two cells | one cell per template cell | medium (not executed) | Grid.OldCopyDuplicatesCells | Grid.Workbook.InsertRows |

Three behaviours of the code a reader may not expect:

- **Merge pass.** The code has one open flag for the whole workbook, not one per sheet. A region left open on one sheet is closed on a later one (`Merge.RegionCrossesSheets`) rather than dropped.
- **Missing `##end`.** A block header with no `##end` after it counts as an empty block, and its row is deleted (`Reconcile.BlockCountEnds`). It is not a "malformed template" error.
- **Copies.** The copies of a range row carry its placeholder text until the block's lines overwrite their cells.
