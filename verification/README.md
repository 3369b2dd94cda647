# Model of the tmux server core

A Dafny model of the parts of tmux that keep the most state, with proofs of what they
keep and do.

- **The grid** (`GridCells`, `GridLine`, `Grids`, `GridMove`, `GridView`, `GridHistory`):
  rows are objects with a compact cell buffer and a buffer of slots for extended cells.
  Cells, rows, regions and history are changed in place, as grid.c and grid-view.c do, and
  each operation is tied to what a reader of the grid sees.
- **Reflow** (`ReflowRows`, `ReflowLines`, `ReflowTurns`, `ReflowFill`, `ReflowKept`,
  `ReflowPosition`, `ReflowCursor`, `ReflowLimits`, `GridReflow`, `GridPosition`): the one-pass
  rewrap of grid.c on values, which cuts rows by the widths of the cells before the pass; the
  rows it stores, in which copied cells are stored again; what it means for logical lines and
  when, the carrying over of a position, and the same in place over the rows of a grid.
- **Printing rows** (`GridSgr`, `GridString`): the sequences emitted for a row, of which
  only differences are sent, and a terminal that reads them (SGR is section 8.3.117 of
  ECMA-48).
- **The control client** (`ControlText`, `ControlQueue`, `ControlSteps`, `ControlMessages`,
  `ControlPanes`, `ControlTrace`, `ControlClient`, `ControlRuns`, `ControlReader`): the queue of a
  client and the queues of its panes, which share their blocks; what is written, in which order,
  that nothing is lost, and what a reader of the other end makes of it.
  Blocks carry numbers in the order of making, which stand for their addresses; the log of
  everything written and the list of the steps taken are ghost state, and the invariants about
  them hold before and after every method, so in every run.
- **The command queues** (`CmdQueueState`, `CmdQueueSteps`, `CmdQueueChains`,
  `CmdQueueWork`, `CmdQueues`, `CmdQueueRuns`, `CmdLists`) and **wait channels** (`WaitFor`). What a
  command does when it is run is a plan it carries: any finite sequence of insertions,
  appends and continuations, and a result. Items carry numbers, which stand for addresses.
- **Formats** (`FormatText`, `FormatJoins`, `FormatTrim`, `FormatScan`, `FormatLayout`): the
  scanners of text with `#[...]` styles, and the placing of the sections of a line.
- **Panes** (`PaneOrder`): rotation and swapping, over pane, cell and window objects that
  point at each other.

Where operations change state, the method's contract gives the new state through a function
or predicate of the old one; the lemmas are about that function. A `View` or `Row` is a row
as a reader sees it, a `State` all the state of a component as one value.

## What the code does that its comments or callers may not expect

- grid.c:43-46 says that padding cells are always extended; grid.c:80-98 does not make them
  so (`ReflowLimits.PaddingTakesColumn`). grid_set_padding may reuse the slot of a coloured cell
  (screen-write.c:2110-2112), and a reflow that copies such padding to a new row gives it a
  column: rows of which every cell fits come out too wide (`ReflowLimits.PaddingWidens`).
- screen-write.c:1477-1502 may leave the last row WRAPPED when the cursor is below the scroll
  region; grid.c:1555-1563 then walks past the last row for a cursor after its last cell
  (`ReflowPosition.LastRowGoesOn`; `ReflowPosition.WrapUnwrap` has the exact condition).
- format-draw.c:138-165: a marker drawn after the columns are chosen may hide the focus
  (`FormatLayout.FocusHidden`).
- grid.c:1290-1306: `wrapped` is cleared before it is known that the cells fit
  (`ReflowLimits.WideEndsLine`; `ReflowTurns.ReflowKeepsLinesIff` says when lines are kept).
- grid.c:735-736 unwraps the row above the place rows are moved to before they are moved; where
  the ranges overlap that row is one of them, so a line in the rows moved is broken
  (`GridMove.MovedGoesOn`, `GridMove.MovedBreaks`).
- grid.c:1418-1420 compares the number of a row before the pass with a scroll position already
  moved by joins (`ReflowLimits.ScrollStaysBehind`).
- grid-view.c:106-123 stores the row that leaves even at a history limit of 0
  (`GridHistory.LimitZero`).
- format-draw.c:1179-1180, 1249-1250: a character that is not printed is dropped, and runs of #
  that it kept apart meet (`FormatTrim.DroppedBetweenHashes`, `FormatTrim.TrimLeftIff`).
- format-draw.c:267-277: with no list left its ranges are not removed
  (`FormatLayout.ListRangesLost`).
- grid-view.c:138-147 moves rows and clears none (`GridView.InsertLines` has the exact
  condition). grid-view.c:106-134 without history does nothing to a region of one row
  (`GridHistory.SameVisibleRows`, `GridView.ScrollRegionDown`).
- control.c:489-529: ignoring output moves the offsets even with blocks queued
  (`ControlClient.Client.WriteOutput`, `ControlMessages.IgnoredThenShort`), which is the one way
  to the fatal check of control_append_data (`ControlRuns.ApplyAccounted`).
- cmd-wait-for.c:140-164: a second signal to an unlocked channel takes the first one away
  (`WaitFor.SignalThenWait`); a locked channel stays woken (`WaitFor.WaitUsesSignal`).
- format-draw.c:268-277: with no room for the list, what comes after it is copied to a screen
  whose width does not grow, since screen-write.c:605 puts the cursor back, so it is not
  drawn (`FormatLayout.AfterNeedsList`).
- cmd-swap-pane.c:125-130: with -d and both panes in one window, an active source pane is made
  inactive and active again, and an active target gives way to the source
  (`PaneOrder.Activate`).
- cmd.c:654-681: a group that is not in one piece is not one group in a copy
  (`CmdLists.CopyIsFaithful`, `CmdLists.TwoPieces`).

## Model

| member | source | states |
|---|---|---|
| GridCells.KeptIsExact | grid.c:80-98 | storing a cell loses nothing exactly when it is in the form a compact position keeps, or the position already has a slot (then only a tab must be in normal form) |
| GridCells.StoreInlineKept | grid.c:61-76 | a cell that needs no slot reads back as its one-column, one-byte form without CLEARED |
| GridCells.StoreExtendedKept | grid.c:116-143 | a cell stored in a slot reads back as it was, without CLEARED, tabs normalised |
| GridCells.OrdinaryKept | grid.c:80-143 | a character in one byte and one column, or in more, is read back as it was stored wherever it is stored, without CLEARED |
| GridCells.BlankIsSpace | grid.c:203-229 | a cleared cell shows a space on its background, in no other colour or attribute |
| GridCells.TabKept | grid.c:274-288 | a tab stored in a slot comes back as a tab of as many columns, and as many spaces |
| GridLines.Line.ExtendCell | grid.c:102-143 | a position gets a new slot at the end, or reuses its own; no other slot or position changes |
| GridLines.Line.ClearCell | grid.c:203-229 | a cleared position shows a space of the background colour; slots of other positions are untouched; a moved position gives its slot up |
| GridLines.Line.ExpandLine | grid.c:495-520 | the row grows to the next of its three sizes with cells that show a space of the background, all cells there before read as before |
| GridLines.ExpandedLeast | grid.c:495-520 | the new size is the least of a quarter, a half and the whole of the grid's width that is more than is needed, or just what is needed |
| GridLines.Line.SetCell | grid.c:593-612 | set then get returns the cell (without CLEARED), every other position reads as before, `cellused` is raised, and the slots stay distinct and in range |
| GridLines.Line.SetCells | grid.c:623-648 | a run of bytes in one style is exactly written over the row, the rest unchanged |
| GridLines.WrittenAt | grid.c:623-648 | what each position holds after a run: its byte in the given style inside, the old cell outside |
| GridLines.Line.MoveCells | grid.c:756-782 | overlapping moves land intact, vacated positions show a space of the background, all others keep their cells, and the slots stay distinct |
| GridLines.Line.Compact | grid.c:147-185 | no reader can tell, and exactly one slot is left for each extended cell |
| ReflowRows.ReflowConserves | grid.c:1254-1512 | the pass on values, copied cells being left as they are: for cells of any width the cells of a grid, read in order, are the same after a reflow; ReflowKept.KeptReflowIff says when that holds of the rows stored |
| ReflowRows.ReflowGridConserves | grid.c:1431-1512 | the same on values with the padding rows, of which there are enough to fill the screen |
| ReflowRows.JoinConserves | grid.c:1255-1359 | on values, a join's target row and the rows it leaves hold exactly the cells there were |
| ReflowRows.PiecesConserve | grid.c:1363-1427 | on values, a split's rows hold exactly the cells of the row split |
| ReflowRows.ReflowFitsIff | grid.c:1431-1512 | on values, every row of the result fits the width exactly when every cell does; ReflowKept.KeptFitsIff is the same of the rows stored |
| ReflowRows.CountedPath | grid.c:1363-1427 | the counting path of a split allocates exactly the rows that are written |
| ReflowLines.ArithmeticPath | grid.c:1363-1427 | so does the arithmetic path, for rows without extended cells |
| ReflowTurns.ReflowKeepsLinesIff | grid.c:1255-1512 | for any rows, cells of any width and any new width: the logical lines are kept exactly when no join of the pass clears the wrap of its row at an unwrapped row it takes nothing of, blank or too wide; each that does makes one line more |
| ReflowTurns.FollowedStops | grid.c:1290-1306 | where no wrapped row is above a blank unwrapped one or above nothing, only a cell that does not fit can end a line early, and the lines are kept exactly when none does |
| ReflowTurns.ReflowBreaks | grid.c:1255-1512 | for any rows: the places where a line ends, or a wrapped row does not go on, grow by exactly the joins that stop at a row that does not fit; the last row goes on after a reflow exactly when it did before |
| ReflowFill.ReflowIsFilledIff | grid.c:1431-1512 | on values, for cells of any width that fits, and rows that do not start with one of no width: a reflow lays each logical line into rows as full as they go, WRAPPED on all but the last, exactly when no wrapped row is above a blank unwrapped one or above nothing and no join stops at a row that does not fit |
| ReflowFill.ReflowIsChunksIff | grid.c:1431-1512 | with one-column cells no join stops so, and a reflow is each logical line cut into rows of exactly the width exactly when no wrapped row is above a blank unwrapped one or above nothing |
| ReflowFill.NarrowStartsStop | grid.c:1290-1306 | no join stops at a row that does not fit when every row but the first starts with a cell of at most one column |
| ReflowFill.SettledIsFilled | grid.c:1431-1512 | rows that fit, are followed and have nothing below that would fit are the one way to lay their lines |
| ReflowFill.ReflowGridIsFilledIff | grid.c:1431-1512 | on values, the whole grid is those rows and then blank rows exactly then; its logical lines are then the old ones and blank lines |
| ReflowFill.ReflowIdempotentIff | grid.c:1431-1512 | on values, reflowing again to the same width changes nothing exactly when every cell fits it |
| ReflowFill.ReflowAwayAndBackIff | grid.c:1431-1512 | on values, a grid whose rows are as full as they go at one width comes back from another with only blank rows added exactly when neither pass has a join that stops at a row that does not fit |
| ReflowKept.KeptReflowIff | grid.c:1254-1512 | the rows as they are stored, each copied cell being stored again on a position with or without a slot: they are cut and wrapped as on values; they are those rows, and hold the cells of the grid unchanged, exactly when every copied cell reads back as it was (a cell that needs no slot is one byte of one column, or its new position has a slot) |
| ReflowKept.StorableStand | grid.c:1254-1512 | for that, at every width and whatever slots there are, it is enough that no cell of the grid depends on its slot |
| ReflowKept.KeptFitsIff | grid.c:1431-1512 | every row stored fits the width exactly when it does with a column for each copied cell of no column that gets no slot; if there are none, exactly when every cell fits |
| ReflowKept.KeptIdempotentIff | grid.c:1431-1512 | of the rows stored, whatever slots they have: a second reflow to the same width changes nothing exactly when the rows of the first fit |
| ReflowKept.KeptAwayAndBackIff | grid.c:1431-1512 | of the rows stored: a grid whose rows are as full as they go comes back from another width with only blank rows added exactly when no copy either way changes a cell and no join either way stops at a row that does not fit |
| ReflowKept.ScrollWithin | grid.c:1355-1420 | the scroll position, moved by each split and each join, stays within the rows there are |
| ReflowKept.ScrollAbove | grid.c:1355-1420 | rows below the scroll position do not move it |
| ReflowKept.ScrollKeepsEnd | grid.c:1355-1420 | where all rows are above it, and the pass only splits or only joins, it moves by exactly the rows that come or go |
| ReflowLimits.WrappedOverBlank | grid.c:1255-1359 | a grid with a wrapped row over a blank one, which stays so |
| ReflowLimits.WideEndsLine | grid.c:1290-1306 | a grid of which one join stops at a cell that does not fit: one line becomes two, though no cell is lost |
| ReflowLimits.PaddingTakesColumn | grid.c:80-98 | a padding cell takes no column while it has a slot and one when stored without |
| ReflowLimits.PaddingWidens | grid.c:1392-1409 | two wide characters with their padding in slots, reflowed to two columns: every cell fits, but the padding copied to the new row takes a column, the row is three wide, and a second reflow changes it again |
| ReflowLimits.PaddingBack | grid.c:1255-1359 | and back at four columns that padding is on a row alone |
| ReflowLimits.ScrollStaysBehind | grid.c:1418-1420 | a pass that first joins and then splits leaves the scroll position a row behind |
| GridReflow.ReflowAll | grid.c:1431-1512 | grid_reflow in place, rows moved, joined, split and reused, gives exactly the rows of KeptGrid for the slots the grid's rows have, and exactly the scroll position of ScrollPass; no two rows share storage and none is dead |
| GridReflow.ReflowSplit | grid.c:1363-1427 | grid_reflow_split in place: the rows built so far, followed by what the specification stores of the rows left, are the same before and after; the scroll position moves as a turn moves it |
| GridReflow.JoinOnto | grid.c:1255-1359 | grid_reflow_join in place: the target row filled from below, each cell stored again, the rows used up dead, the one cut short shortened and its slots gone; the scroll position moves by the rows used up |
| GridReflow.ReflowMove | grid.c:1243-1251 | grid_reflow_move hands a row over and leaves a dead one |
| ReflowPosition.WrapIsIndex | grid.c:1516-1534 | the wrapped position of a used cell is its index on its logical line |
| ReflowPosition.UnwrapIsIndex | grid.c:1538-1567 | for any rows, any index on any logical line unwraps to the used cell with that index |
| ReflowPosition.WrapUnwrap | grid.c:1516-1567 | with no reflow in between, for any rows: a used cell comes back exactly; any other position comes back as the end of its logical line, and leaves the grid exactly when no row from there on is unwrapped |
| ReflowPosition.LastRowGoesOn | grid.c:1555-1563 | a grid that a position leaves: one full row that goes on, as screen-write.c:1477-1502 leaves the last row, with the cursor after it |
| ReflowCursor.PositionSurvivesIff | screen.c:648-669 | for any rows, slots, width and height: a cursor on a used cell is on that cell, at the same place in the text, after a reflow exactly when no join of the pass ends a line before it |
| ReflowCursor.EndSurvivesIff | screen.c:648-669 | for any rows, slots, width and height: a cursor past the used cells is at the end of the row that ends the same text exactly when no join ends a line too early down to the end of its line; when its line is the last and goes on, it is on the blank row below, and outside the grid if there is none |
| ReflowCursor.ReflowLater | grid.c:1255-1512 | for any rows, width and place in the text: a reflow puts it as many logical lines further down as joins end a line before it, and at the same index if none does |
| ReflowCursor.ReflowConcat | grid.c:1255-1512 | logical lines are reflowed apart: what is below the end of a line changes nothing above it, and the other way round |
| ReflowCursor.CellAt | screen.c:648-669 | the cell the cursor is on then is the one it was on, or that cell stored again |
| GridPosition.WrapPosition | grid.c:1516-1534 | the loop of grid_wrap_position computes that position |
| GridPosition.UnwrapPosition | grid.c:1538-1567 | the loops of grid_unwrap_position compute that position, whenever it is inside the grid |
| GridPosition.ScreenReflow | screen.c:648-669 | screen_reflow in place: the grid is exactly the specified one, and the cursor is where those two results say; without a cursor to keep, the start of the screen is taken |
| GridPosition.EndedInside | grid.c:1538-1567 | the walk after a reflow stays in the grid when its last row did not go on, and for a used cell when no join ends a line before it |
| GridMove.MoveLines | grid.c:714-752 | rows move intact, overlapping or not, vacated rows show spaces of the background or have no cells, rows outside are untouched but for the wrap flags, nothing is wrapped onto rows moved or left empty, out-of-range calls (in 32 bits) do nothing, and no two rows share storage afterwards |
| GridMove.ClearLines | grid.c:692-710 | exactly the rows named are emptied, to the width of the grid in spaces of a background that is not the default, counting in 32 bits, and the row above loses its wrap |
| GridMove.BlankIsEmptied | grid.c:522-529 | an emptied row has no cells with a default background, else the width of the grid in spaces of that background; none of it is used, and it is not wrapped |
| GridMove.MovedRow | grid.c:714-752 | each row after a move, and which rows have lost their wrap |
| GridMove.MovedGoesOn | grid.c:735-752 | a wrapped row that moves with the row below it still goes on in it exactly when it was not just above the new place |
| GridMove.MovedBreaks | grid.c:735-752 | rows moved down by one, the first of them wrapped: its line is broken |
| GridMove.ClearedRow | grid.c:692-710 | each row after a clear: emptied inside, as it was outside, but for the wrap of the row above |
| GridView.InsertIsSplice | grid-view.c:151-163 | the move and the clear of a region insert, with the unsigned difference that may wrap, are the insertion of blank rows |
| GridView.DeleteIsSplice | grid-view.c:181-193 | likewise for a region delete |
| GridView.InsertLinesRegion | grid-view.c:151-163 | a region insert yields the blank rows, then the surviving rows, and nothing else changes |
| GridView.DeleteLinesRegion | grid-view.c:181-193 | a region delete yields the surviving rows, then the blank rows, and nothing else changes |
| GridView.DeleteAfterInsert | grid-view.c:151-193 | a delete after an insert gives back the surviving rows, blank rows where the others were |
| GridView.InsertAfterDelete | grid-view.c:151-193 | an insert after a delete gives back the surviving rows below blank rows |
| GridView.InsertLines | grid-view.c:138-147 | grid_view_insert_lines, which clears nothing, is an insertion exactly when the rows it neither moves nor moves onto were blank |
| GridView.DeleteLines | grid-view.c:167-177 | grid_view_delete_lines is always a deletion |
| GridView.MoveDownExact | grid-view.c:138-147 | when a move without a clear is an insertion, row by row |
| GridView.MoveUpExact | grid-view.c:106-123 | when a move without a clear is a deletion, row by row |
| GridView.ScrollRegionDown | grid-view.c:127-134 | a scroll down is the insertion of one blank row exactly when the region has more than one row or its row was blank |
| GridHistory.HistoryIsLog | grid-view.c:106-123 | over any run of scrolls and for any limit the history is the end of the initial history and the rows scrolled out, in order, and exactly as long as LengthAfter says; hscrolled stays within it |
| GridHistory.HistoryBoundedIff | grid-view.c:106-123 | it is never longer than the larger of its initial size and the limit exactly when the limit is not 0, or there was a history, or nothing is scrolled; else it is one row long |
| GridHistory.LimitZero | grid.c:386-411 | a limit of 0, which session.c:770-790 may set on a grid with history, and an empty history: the next scroll leaves one row |
| GridHistory.LengthBelow | grid.c:386-411 | that is one row more for each scroll while the limit has room for all |
| GridHistory.ScrollAtLimit | grid.c:386-411 | at a limit of ten or more a scroll drops a tenth of it and adds a row, at a smaller one the size stays |
| GridHistory.CollectedAll | grid.c:386-411 | a collection of all leaves the limit, or a row less when it was met exactly, and below the limit everything |
| GridHistory.ScrollUpStep | grid-view.c:106-123 | one scroll, for any limit: the row that leaves is the newest of the history, and the screen loses exactly it |
| GridHistory.ScrollUpBound | grid-view.c:106-123 | one scroll keeps the bound exactly when the limit is not 0 or there is a history |
| GridHistory.NothingDroppedBelowLimit | grid.c:386-411 | below its limit the history loses nothing |
| GridHistory.SameVisibleRows | grid-view.c:106-123 | the branch without history leaves the same visible rows as those with it exactly when the region has more than one row or its row was blank |
| GridHistory.TrimHistory | grid.c:370-379 | the oldest rows go, the rest move up, and the rows left behind are empty |
| GridHistory.CollectHistory | grid.c:386-411 | at the limit a tenth of the history, or all that is over it, but at least a row, is dropped from the front; below it nothing |
| GridHistory.ScrollHistory | grid.c:431-444 | the screen moves up a row into history, and a blank row comes in |
| GridHistory.ScrollHistoryRegion | grid.c:461-491 | the memmoves for a region put its top row in history and close the region up, the other rows untouched |
| GridHistory.ScrollRegionUp | grid-view.c:106-123 | the three branches, each as its step on the log |
| GridHistory.ClearHistory | grid-view.c:66-91 | every row down to the last used one goes into history, which is then the end of the old one and those rows and exactly as long as so many scrolls make it; the screen is blank, hscrolled is reset |
| GridSgr.CodeDoes | grid.c:969-1079 | a terminal that has the look of one cell has, after the emitted sequences, exactly the look of the next, though only differences are sent |
| GridSgr.PrintableExactly | grid.c:786-935 | the cells for which that holds from any look are exactly those with coded colours, at most one underscore and no overline |
| GridSgr.NothingSentIff | grid.c:969-1079 | nothing is sent exactly when the next cell has the look of the last |
| GridSgr.SameColoursUnsent | grid.c:1037-1060 | when nothing has to be reset, what is sent does not depend on a colour that both cells have |
| GridSgr.OldAttributesUnsent | grid.c:985-1034 | of the attributes only those that are new are sent |
| GridString.ParseEncode | grid.c:1015-1034 | a terminal reads back from the bytes the sequences that were written |
| GridString.RowShows | grid.c:1083-1174 | for any row and any look to begin with, the terminal shows exactly the cells that are not padding, each in its own look |
| GridString.OneMorePrinted | grid.c:1117-1165 | each cell adds, in its own colours and attributes, nothing if it is padding, one tab if it is a tab, else the bytes of its character |
| GridString.LettersPrint | grid.c:1117-1165 | a row of ordinary characters prints as their bytes one after the other, with sequences and without |
| GridString.PrintedRowShows | grid.c:1083-1174 | the same from the bytes of the string |
| GridString.SequencesShowText | grid.c:1083-1174 | for cells of any look whose bytes are no control bytes, printing with sequences shows the same text as printing without |
| GridString.MustReset | grid.c:999-1008 | the first loop finds whether an attribute was removed or the underscore colour has to go back to the default |
| GridString.CodeString | grid.c:969-1079 | grid_string_cells_code writes exactly those sequences |
| GridString.StringCells | grid.c:1083-1174 | grid_string_cells gives exactly the bytes for the cells shown, and leaves the last cell printed as the one to differ from; for ordinary characters these bytes are the characters in order, or what a terminal shows of them is |
| ControlText.UnescapeEscape | control.c:642-653 | undoing the octal escapes of a payload gives the pane's bytes |
| ControlText.EscapePrintable | control.c:642-653 | no byte below a space is sent in a payload |
| ControlText.EscapeUnchangedIff | control.c:642-653 | a payload goes as it is exactly when it has no byte below a space and no backslash |
| ControlText.AppendEscaped | control.c:642-653 | the copying loop, plain runs at once and the rest one by one, appends exactly the escaped bytes |
| ControlReader.ReadMessage | control.c:620-656 | a reader of its own takes the line of a message apart into the pane, the age if it has one, and after undoing the escapes exactly the bytes put in it |
| ControlReader.ReadNotes | control.c:371-396 | the lines that a pane is paused or goes on are read as that, with the pane's number |
| ControlReader.LinesRead | control.c:620-670 | the output buffer cut at its newlines is one line for each line and message written, in order |
| ControlReader.BytesRead | control.c:620-670 | under each pane's number a reader finds exactly the bytes put in its messages |
| ControlReader.ClientRead | control.c:620-735 | what any client object has sent, read so, gives of every pane exactly the bytes it wrote, from where its output last started afresh to its offset |
| ControlRuns.BlockBeforeLine | control.c:34-48 | in every run of the client's steps: of a block queued, or a line given, before another line, every byte sent is before every byte of that line |
| ControlRuns.SentInOrder | control.c:34-48 | and so of the bytes in the output buffer of any client object: every method keeps the list of the steps it took, and the state is the one they lead to |
| ControlRuns.LogOrdered | control.c:34-48 | in any log in order, after a byte of a line come only bytes of it and of what was queued later |
| ControlRuns.LogBytes | control.c:620-670 | the bytes so followed are exactly the bytes sent |
| ControlRuns.RunGood | control.c:34-48 | every invariant holds in every run |
| ControlRuns.RunAccounted | control.c:620-640 | in every run in which no pane's offsets are moved while blocks of it are queued, the bytes of every pane's first block are there to be read, so the fatal check is not met |
| ControlRuns.ApplyAccounted | control.c:489-529 | the account is lost by a step that moves the offsets of a pane with blocks queued, and by no other |
| ControlQueue.PaneQueueIsSubsequence | control.c:34-48 | each pane's queue is the subsequence of the client's queue that is of that pane |
| ControlQueue.EnoughData | control.c:620-640 | with accounts straight, the fatal check of control_append_data cannot fail |
| ControlMessages.IgnoredThenShort | control.c:489-529 | output ignored while blocks are queued leaves too little to be read for the first of them |
| ControlSteps.RestartKeeps | control.c:344-382 | moving both offsets keeps every invariant, and the account exactly when nothing of the pane is queued |
| ControlSteps.DiscardKeeps | control.c:274-283 | throwing a pane's output away takes exactly its blocks off both queues, keeps every invariant and accounts for the bytes |
| ControlSteps.WriteLineKeeps | control.c:417-440 | a line written at once or stored keeps order, accounts and what was delivered |
| ControlSteps.FlushKeeps | control.c:601-616 | a flush writes the lines at the front, stops at the first block of output, and keeps every invariant |
| ControlSteps.EnqueueKeeps | control.c:501-521 | a new block goes on both queues and the pane on the pending list once, every invariant and account kept |
| ControlMessages.TakeKeeps | control.c:701-720 | bytes put into a message are the next of the pane, and every invariant and account is kept |
| ControlMessages.ForgetKeeps | control.c:693-699 | a message thrown away half built leaves the log as if it had never been begun |
| ControlClient.OneLine | control.c:620-670 | every message in the log is one line |
| ControlClient.Client.constructor | control.c:776-858 | a new client has empty queues and satisfies every invariant |
| ControlClient.Client.Write | control.c:417-440 | control_write: at once exactly when nothing is queued |
| ControlClient.Client.FlushAll | control.c:601-616 | control_flush_all_blocks is the flush step |
| ControlClient.Client.DiscardPane | control.c:274-283 | control_discard_pane is the discard step |
| ControlClient.Client.SetPaneOn | control.c:344-354 | only a pane that is off changes: it is on and starts at the window's offset |
| ControlClient.Client.SetPaneOff | control.c:358-367 | the pane is off, has nothing queued and starts at the window's offset; no other pane changes |
| ControlClient.Client.ContinuePane | control.c:371-382 | only a paused pane changes: it starts at the window's offset and the client is told |
| ControlClient.Client.PausePane | control.c:386-396 | the pane is paused with nothing queued, and the client is told once |
| ControlClient.Client.ResetOffsets | control.c:302-315 | no pane is left, nothing is pending, and exactly the stored lines remain |
| ControlClient.Client.CheckAge | control.c:444-475 | too late exactly when the oldest block of the pane is that old; then the pane is paused or the client given up, otherwise nothing changes |
| ControlClient.BehindFrom | control.c:444-475 | a block is too old from the age allowed on, and never before it is a millisecond old |
| ControlClient.Client.WriteOutput | control.c:479-529 | each branch as its step, when the pane is too far behind too: then it is paused and the client told, or the client given up and all queues emptied; the account is lost exactly when output is ignored with blocks still queued |
| ControlClient.Client.AppendData | control.c:620-656 | the bytes of the block's size at the pane's offset are added to the message, escaped, after the header with the pane's number if it is new |
| ControlClient.Client.WriteBlock | control.c:690-701 | a turn takes some of the block, at most the room, and a message it begins has the age of that block in its heading, if the client asked for ages |
| ControlClient.Client.WritePending | control.c:674-735 | at most the limit is written, exactly the lesser of limit and queue unless the pane fell behind or is gone; order, delivery and accounts kept; a pane stays pending exactly while it has blocks |
| ControlClient.Client.ServeAll | control.c:746-769 | one pass over the pending list writes of each pane at most its share of the room in the buffer, and leaves less to write or fewer panes pending |
| ControlClient.ShareExact | control.c:746-769 | a share is the most bytes of which every pane can have three times as many in the room there is, or 32 |
| ControlClient.Client.WriteCallback | control.c:739-772 | it ends, with the buffer full or nothing pending and, unless a pane fell behind, no line waiting at the front; the log only grows, offsets only advance, and every invariant holds |
| ControlClient.Client.Receive | window.c:2040-2058 | a pane's new bytes change no queue and no account |
| CmdQueueSteps.OnlyHead | cmd-queue.c:743-821 | only the head of a queue is ever running, fired or waiting |
| CmdQueueSteps.FiredInOrder | cmd-queue.c:743-821 | no item is fired twice, fired items come in queue order, and what stood before a fired item was fired or cancelled |
| CmdQueueState.TrackSplice | cmd-queue.c:329-353 | an item inserted after a queued one keeps queue and history in one order |
| CmdQueueState.TrackShoot | cmd-queue.c:743-821 | firing the head extends what was fired in that order |
| CmdQueueState.RefKeeps | cmd-queue.c:235-239 | one more holder, one more reference |
| CmdQueueState.UnrefKeeps | cmd-queue.c:252-260 | one holder fewer, one reference fewer, and the object goes only when nothing needs it |
| CmdQueueSteps.EnqueueKeeps | cmd-queue.c:305-325 | an appended item keeps every invariant, its client's references included |
| CmdQueueSteps.InsertKeeps | cmd-queue.c:329-353 | so does an inserted one, which counts for the client the item before it has just then |
| CmdQueueSteps.RemoveKeeps | cmd-queue.c:458-470 | so does removing one, its three references given back |
| CmdQueueSteps.StartKeeps | cmd-queue.c:610-640 | so does starting the head with a client found for it |
| CmdQueueChains.EnqueueAllDoes | cmd-queue.c:305-325 | a chain appended item by item stands at the end of the queue in order, each item the client's, no link left |
| CmdQueueChains.InsertAllDoes | cmd-queue.c:329-353 | a chain inserted item by item stands in order right after its item |
| CmdQueueChains.SpliceMore | cmd-queue.c:329-353 | inserting each item after the last one inserted keeps the chain in order |
| CmdQueueChains.QueuedClientThere | cmd-queue.c:305-325 | a client with items queued has not gone |
| CmdQueues.Queues.AppendItems | cmd-queue.c:305-325 | cmdq_append, following the next pointers |
| CmdQueues.Queues.InsertAfter | cmd-queue.c:329-353 | cmdq_insert_after, following and threading the next pointers, returns the last item |
| CmdQueues.Queues.GetCommand | cmd-queue.c:498-541 | an item for each command of the list, linked in order, sharing one state with a reference each; an empty list gives a callback that does nothing |
| CmdQueues.Queues.InsertCommands | cmd-queue.c:329-353 | a command list inserted from inside a running item: its items stand right after the given one, in order, on the same queue and client, and the last is returned |
| CmdQueues.Queues.AppendCommands | cmd-queue.c:305-325 | a command list appended: its items are the new end of the client's queue, in order |
| CmdQueues.Queues.RemoveGroup | cmd-queue.c:474-487 | exactly the later items of the group go, none for group 0, none that waits |
| CmdQueues.Queues.FireItem | cmd-queue.c:743-812 | the head is fired once, and exactly its plan is done, act by act; while it runs nothing leaves a queue or moves on it; then, when it failed, exactly the later items of its non-zero group are cancelled, and the rest stay in order |
| CmdQueues.Queues.PerformActs | cmd-queue.c:305-353 | each act in turn: new items for exactly the commands, right after the running item or the last item inserted, or at the end of the client's queue; a waiting head let go; nothing where the list, the state or the client is gone |
| CmdQueues.Queues.RunItem | cmd-queue.c:610-700 | the head runs with the client found for it, then with its own again, and its plan is done |
| CmdQueueWork.ChainAt | cmd-queue.c:329-353 | what an insertion puts on a queue stands in order right behind an item that is there, and nothing else moves |
| CmdQueueWork.ErrorEndsGroup | cmd-queue.c:783-796 | after a command that failed no other item of its group that was on the queue is left, they are cancelled; every other item is left, and without a failure all are |
| CmdQueueRuns.WorkedOff | cmd-queue.c:743-821 | whatever was on the queue while one of its items ran has been fired, or was cancelled, or is still on it |
| CmdQueueRuns.InsertedAreFired | cmd-queue.c:743-821 | commands that a running item inserts have an item each, and all of them are fired or cancelled when the queue has been worked off |
| CmdQueueWork.RoundCancels | cmd-queue.c:743-821 | so one turn of the loop cancels exactly those |
| CmdQueues.Queues.Next | cmd-queue.c:743-821 | items run from the head until one waits or none is left; a waiting head runs nothing; only this queue's items are fired, as many as counted; what each does is its plan and what is cancelled is the union of what each fired item cancels, turn by turn |
| CmdLists.CopyGroups | cmd.c:654-681 | two commands of a copied list are in one group exactly when the originals and all between them are: neighbours exactly as before |
| CmdLists.CopyIsFaithful | cmd.c:654-681 | a copy has the groups of the original exactly when each of those is in one piece |
| CmdLists.TwoPieces | cmd.c:610-633 | operations that leave a group in two pieces, when a list is used again after its commands were moved |
| CmdLists.CopyInTwo | cmd.c:654-681 | in a copy of such a list the two pieces are not one group |
| CmdLists.CmdList.Copy | cmd.c:654-681 | cmd_list_copy makes new commands with those groups and leaves the original alone |
| CmdLists.CmdList.AppendAll | cmd.c:618-626 | the commands come over in order, into this list's group |
| CmdLists.CmdList.Move | cmd.c:629-633 | the commands come over in order with their groups, and the list's new group is that of none of them |
| CmdLists.CmdList.Free | cmd.c:637-650 | the commands go with the last reference |
| WaitFor.RunKeeps | cmd-wait-for.c:140-241 | in every run without a flush: lockers only while locked, waiters only while not woken, a lock given in the order of asking and held exactly when given once more than unlocked |
| WaitFor.WaitsOnce | cmd-wait-for.c:140-241 | an item made to wait is in exactly one list of one channel or was continued exactly once; no other item is listed or continued |
| WaitFor.RemovedIdle | cmd-wait-for.c:105-118 | a channel is removed only when nobody waits for it or holds it |
| WaitFor.SignalThenWait | cmd-wait-for.c:140-164 | after a signal the next wait passes exactly when nobody was waiting and it was not a second signal to an unlocked channel |
| WaitFor.WaitUsesSignal | cmd-wait-for.c:167-193 | a wait that passes uses the signal up exactly when the channel is not locked |
| WaitFor.SignalWakesAll | cmd-wait-for.c:140-164 | in any run: a signal continues everybody who waits on its channel, in order, and leaves nobody waiting; no lock and no other channel is touched |
| WaitFor.SignalReaches | cmd-wait-for.c:140-164 | in any run: an item made to wait on a channel that is signalled later has been continued |
| WaitFor.WaitStops | cmd-wait-for.c:167-193 | in any run: a wait stops its item exactly when no signal is kept, as the last of those who wait |
| WaitFor.LockGives | cmd-wait-for.c:196-218 | in any run: a lock is given at once exactly when nobody holds it, else its item is the last of those who want it |
| WaitFor.UnlockPasses | cmd-wait-for.c:221-241 | in any run: an unlock hands the lock to the first who wants it, or frees it, and is an error exactly when nobody holds it |
| WaitFor.NoClient | cmd-wait-for.c:167-218 | without a client a wait or a lock is an error and changes nothing |
| WaitFor.WaitChannels.DoSignal | cmd-wait-for.c:140-164 | cmd_wait_for_signal in place is the signal step |
| WaitFor.WaitChannels.DoWait | cmd-wait-for.c:167-193 | cmd_wait_for_wait in place is the wait step, its result included |
| WaitFor.WaitChannels.DoLock | cmd-wait-for.c:196-218 | cmd_wait_for_lock in place is the lock step, its result included |
| WaitFor.WaitChannels.DoUnlock | cmd-wait-for.c:221-241 | cmd_wait_for_unlock in place is the unlock step, its result included |
| WaitFor.WaitChannels.Flush | cmd-wait-for.c:244-264 | every item is continued exactly as often as it is in a list, so once and no other, and no channel is left |
| FormatJoins.EmitExact | format-draw.c:1146-1171 | pieces of text written one after the other read as they were meant exactly when no # on its own meets another, a [ or a style, with only pairs of # between |
| FormatTrim.TrimLeftIff | format-draw.c:1127-1184 | for any 7-bit text: what trimming on the left writes reads as the first characters, exactly when in those columns of the text no # on its own is, but for characters that are not printed and #s in pairs, next to another, a [ or a style |
| FormatTrim.TrimRightIff | format-draw.c:1188-1254 | for any 7-bit text whose styles end: trimming on the right drops exactly the first characters and keeps every style, under exactly that condition on the rest of the text |
| FormatTrim.TrimLeftExact | format-draw.c:1127-1184 | then the width is the lesser of the limit and the columns before a style that never ends; it is what format_width promises exactly when every style ends, or nothing comes before the one that does not, or nothing was asked for |
| FormatTrim.TrimRightExact | format-draw.c:1188-1254 | then the width is the lesser of the limit and format_width, and the last characters are kept |
| FormatTrim.PrintableExact | format-draw.c:1127-1254 | for printable text the condition always holds, and both widths are exact |
| FormatTrim.OneCharWidth | format-draw.c:1088-1119 | a character on its own takes a column exactly from the space up to the tilde |
| FormatTrim.WidthByChance | format-draw.c:1127-1184 | a text of which the width comes out right by chance though a # has met a [: so the condition is about what is read, not about the width |
| FormatTrim.DroppedBetweenHashes | format-draw.c:1179-1180 | a character that is not printed, dropped from between two #s, changes the width |
| FormatTrim.TrimLeftFits | format-draw.c:1135 | twice the length is room enough |
| FormatTrim.TrimRightFits | format-draw.c:1202 | likewise on the right |
| FormatTrim.WidthIsDrawn | format-draw.c:752-830 | for any text the columns drawn over all sections are what format_width measures, wherever styles send them: none when a style never ends |
| FormatTrim.QuoteTokens | format.c:4021-4034 | quoted 7-bit text is nothing but its own printed characters |
| FormatTrim.QuoteSays | format.c:4021-4034 | the round trip: quoted printable text says exactly the text quoted, and is as wide |
| FormatTrim.QuotedDraws | format.c:4021-4034 | drawing quoted text draws exactly its printed characters, all in one section |
| FormatText.SkipPrefix | format.c:4277-4301 | where a style ends does not depend on what follows it |
| FormatText.SkipNested | format.c:4277-4308 | of text made of plain characters, escapes and nested #{...} the end is found exactly, whatever follows |
| FormatScan.SkipTo | format.c:4277-4308 | the loop of format_skip1 finds that end |
| FormatScan.LeadingHashes | format-draw.c:648-674 | the count, the width and the new position for a run of #s |
| FormatScan.FormatWidth | format-draw.c:1088-1119 | format_width is the number of characters, or 0 when a style never ends |
| FormatScan.FormatTrimLeft | format-draw.c:1127-1184 | the loop computes the trimmed text of the lemmas |
| FormatScan.FormatTrimRight | format-draw.c:1188-1254 | the loop computes the trimmed text of the lemmas |
| FormatScan.FormatQuoteStyle | format.c:4021-4034 | the loop doubles exactly the #s |
| FormatScan.FormatDraw | format-draw.c:752-830 | the walk of format_draw, with its own counting of #s, draws the same characters as the other scanners see, and nothing when a style never ends |
| FormatLayout.ShrinkUnique | format-draw.c:184-191 | total and order leave one way to fit the sections |
| FormatLayout.FittedFits | format-draw.c:184-191 | the fitted widths fill no more than there is, none grew, and one shrinks only when those before it are gone |
| FormatLayout.FitThree | format-draw.c:184-191 | the loop without a list, one column at a time, is that fitting |
| FormatLayout.FitFive | format-draw.c:249-265 | so is the loop with a list |
| FormatLayout.NoneTidy | format-draw.c:169-224 | with no list all pieces land inside, apart, and read columns their sections have |
| FormatLayout.LeftTidy | format-draw.c:228-327 | so do they with the list on the left, markers included |
| FormatLayout.RightTidy | format-draw.c:439-542 | and with the list on the right |
| FormatLayout.NonePlaced | format-draw.c:169-224 | with no list: the left from its start at the left edge, the right to its end at the right edge, the middle of the centre in the middle of what is left, the absolute centre in the middle of all |
| FormatLayout.LeftPlaced | format-draw.c:228-327 | with the list on the left: left, list and what comes after it one after the other, the right at the right edge, the centre in the middle of the rest |
| FormatLayout.RightPlaced | format-draw.c:439-542 | with the list on the right: the left at the left edge, list, what comes after it and the right up to the right edge, the centre in the middle of the rest |
| FormatLayout.ListFits | format-draw.c:125-165 | the list and its markers fill the list's place side by side, and a marker means columns not shown on its side |
| FormatLayout.MarkersPlaced | format-draw.c:148-165 | markers are drawn whole, the left one where the list's place begins, the right one where it ends |
| FormatLayout.FocusSeenIff | format-draw.c:138-165 | the middle of the focus is in the middle of the columns chosen unless those are at an end of the list, and is seen exactly when neither marker, where it is drawn, is wide enough to reach it |
| FormatLayout.FocusHidden | format-draw.c:138-165 | with markers of one column it is hidden exactly in a place of two columns, when the second of more than two columns is in focus |
| FormatLayout.AfterNeedsList | format-draw.c:247-289 | what comes after the list is drawn whole, at its place, exactly when there is a list and room for a column of it beside the left, the right and what comes after; otherwise not at all |
| FormatLayout.AfterLost | format-draw.c:268-277 | sizes for which it is not drawn though there is room |
| FormatLayout.CopyNotRead | screen-write.c:567-609 | what is copied behind a section's columns when there is no room for the list is read by no piece |
| FormatLayout.MovedExact | format-draw.c:74-106 | any range covers, after its section is drawn, exactly the columns it covered, none if its end is not after its start; it goes only when none of them was drawn |
| FormatLayout.UpdateRanges | format-draw.c:74-106 | the loop does that to every range of the section and to no other |
| FormatLayout.PutList | format-draw.c:125-165 | format_draw_put_list draws those pieces |
| FormatLayout.DrawNone | format-draw.c:169-224 | format_draw_none draws those pieces |
| FormatLayout.DrawLeft | format-draw.c:228-327 | format_draw_left draws those pieces, and places the ranges accordingly |
| FormatLayout.DrawRight | format-draw.c:439-542 | format_draw_right draws those pieces, and places the ranges accordingly |
| FormatLayout.RangesDrawn | format-draw.c:74-106 | after a whole drawing each range is where its section was drawn, and those of sections not drawn are as they were |
| FormatLayout.RangesInside | format-draw.c:74-106 | a range left over lies in the piece of its section when there is one, and else is as it was found |
| FormatLayout.ListRangesLost | format-draw.c:267-277 | with no room for the list its ranges, and those of what comes after, keep the places they had in their sections |
| PaneOrder.DownUp | cmd-rotate-window.c:57-109 | a rotation one way undoes one the other way |
| PaneOrder.FullCircle | cmd-rotate-window.c:57-109 | as many rotations as panes bring every one back |
| PaneOrder.DownsAre | cmd-rotate-window.c:57-83 | after any number of rotations that many of the last panes stand in front, in order |
| PaneOrder.RotateDown | cmd-rotate-window.c:57-83 | panes move on by one, the cell and geometry of every place stay, cells and panes still point at each other, and the active place stays active |
| PaneOrder.RotateUp | cmd-rotate-window.c:84-109 | likewise the other way |
| PaneOrder.DownThenUp | cmd-rotate-window.c:57-109 | down and then up leaves every pane, its cell and its geometry as they were |
| PaneOrder.SurgeryExchanges | cmd-swap-pane.c:85-94 | within one list the removal, replacement and insertion exchange exactly two panes, next to each other or not, first and last included |
| PaneOrder.SurgeryBetween | cmd-swap-pane.c:85-94 | with two lists each gets the other's pane in the same place |
| PaneOrder.SwapLists | cmd-swap-pane.c:85-94 | the list surgery in place |
| PaneOrder.SwapPanes | cmd-swap-pane.c:82-130 | the two panes exchange places, cells, geometry and windows; every place and every other pane stays; which panes are active, with and without -d, in one window and in two |
| PaneOrder.SwapTwice | cmd-swap-pane.c:82-130 | a second swap undoes the first, the active panes included exactly when: in one window the target was active (with -d, was not); in two windows both panes were active (with -d, always) |

## Left out

- Reflow: time stamps of rows are not part of the model.
- ReflowRows.ReflowConserves: is about the pass on values, as are the rows of the table that say
  so; of the rows stored it holds under the condition of ReflowKept.KeptReflowIff.
- ReflowFill.ReflowIsFilledIff: is for cells that fit the width and rows that do not start with a
  cell of no width; such a cell, which a padding cell in a slot is, is left on its row though it
  would fit above. Which lines are kept is stated for all rows (ReflowTurns.ReflowKeepsLinesIff).
- ReflowCursor.PositionSurvivesIff: is for grids with fewer than UINT_MAX used cells, as is the
  place of the cursor in GridPosition.ScreenReflow.
- GridPosition.UnwrapPosition: is for positions whose walk stays in the grid, as is
  GridPosition.ScreenReflow; beyond it the code reads what is not there.
- GridLines.Line.SetCells: is for cells that are not tabs.
- GridMove.MoveLines: is for ranges that end within 32 bits; beyond, its checks pass for ranges
  outside the grid.
- GridView.InsertLinesRegion: leaves the WRAPPED flags of moved rows to GridMove.MovedRow and
  GridMove.ClearedRow, as do the other line operations of grid-view.c; the callers clamp the
  count to the region (screen-write.c:1216-1310), as its condition says.
- grid_remove_history, grid_clear, grid_duplicate_lines, grid_compare and the in-row character
  operations of grid-view.c: they add easy members.
- UTF-8: utf8_from_data and utf8_to_data are taken to be inverse, so a slot holds the character
  itself; multi-byte text is not part of the format scanners.
- Colours: the three forms packed in one int are constructors; a colour number outside them is
  not represented.
- GridSgr.CodeDoes: overline, which is emitted as a sub-parameter of 5, and hyperlinks are not
  covered.
- GridString.StringCells: without hyperlinks, trimming of spaces or escaped sequences; a caller
  that passes no cell to differ from is the case without sequences.
- control_pane_offset, subscriptions, the reading side and the enabling of events in control.c.
- ControlClient.Client.WritePending: is for states in which the account is kept, as in the others
  the fatal check may end the program (ControlMessages.IgnoredThenShort); so are ServeAll and
  WriteCallback.
- ControlClient.Client.WriteCallback: that every stored line is written in the end is not
  stated: after a pane is paused inside the callback lines may stay stored.
- ControlClient.Client.ResetOffsets: the panes are discarded first and forgotten together, not
  one by one.
- window.c drops the input all readers have used; the model keeps it, so offsets are positions
  from the start and the modular arithmetic of window.c:2040-2058 does not appear.
- ControlReader.ClientRead: is for clients given no other line that reads as output of a pane or
  has a newline in it.
- CmdQueueRuns.InsertedAreFired: is about what an item inserts while it has the client found for
  it; what it does after that is in the contract of CmdQueues.Queues.RunItem.
- CmdQueues.Queues.FireItem: hooks, targets, messages and guard lines are part of a command's
  plan or left out; a plan is finite, so commands that insert others for ever are not covered.
- CmdQueues.Queues.GetCommand: a state made for the commands is given up after they are made, as
  in the source; for a callback the same two steps stand for its one.
- Freed clients, states and command lists are removed from the reference maps; what freeing them
  does is not part of the model.
- CmdLists.CmdList.Copy: expansion of arguments is not modelled, the text is copied.
- WaitFor.WaitChannels.Flush: channels are taken in any order, and a flush is not part of the runs
  of WaitFor.RunKeeps.
- FormatScan.FormatDraw: the section a style selects is a parameter that may depend on all drawn
  so far; the `ignore` style, colours, ranges and fills are not part of the walk.
- FormatTrim.TrimLeftIff: the condition is exact for what the text reads as; the width alone may
  be right without it (FormatTrim.WidthByChance).
- format_draw_centre and format_draw_absolute_centre, and the clearing of the area with a fill.
- FormatLayout.DrawLeft: widths are taken to add up within 32 bits.
- PaneOrder.SwapPanes: options, palettes, the stacks of last panes, zooming and the fixing of
  layouts that follows are not part of the model.
- Allocation failure, logging, and the tables of colour.c and attributes.c.
