# Verification of the agent core

Dafny models of the hardest parts of this agent core, with proofs of what they
promise. `dafny verify dfyconfig.toml` checks all of it.

- **Line diff, patch and display** (`EditDistance`, `MyersSearch`, `ChosenPath`,
  `LineDiff`, `PatchReplay`, `HunkShape`, `HunkContext`, `UnifiedHunks`, `PatchText`,
  `DisplayDiff`). The search with its map of paths, linked components, pruning and
  deletions is proved to find a least diff, against a recursive edit distance that is
  tied to longest common subsequences, and which of several: removed lines come before
  the added ones that replace them. Hunks and display rows are proved by reading them
  back: applied to the old lines they give the new ones, and hunks hold just the changes
  of the diff and the context asked for. The printed patch is read back from its text.
- **Edits** (`LineEndings`, `EditSplice`, `EditOverlay`, `EditEngine`, `EditMeaning`,
  `EditTool`). Locating, sorting and replacing, the overlay that keeps the original
  bytes of untouched lines, and the file around it; and what all that means for the
  edits as they are given. Normalization for fuzzy matching is a
  parameter, `norm`, of which only what is stated is used: normalizing the content
  twice changes nothing more, and brings in no carriage return.
- **Bounded output** (`Truncate`, `Encoding`, `ShellOutput`, `ReadTool`). The capture
  that works chunk by chunk refines truncating the whole stream, and what it captures
  can be read as the characters received; following the read tool's offsets gives back
  the file.
- **The agent loop** (`ToolBatch`, `PromptScript`, `PromptMeaning`, `AgentLoop`). One
  prompt from its first turn to its one result, over every script of what happens
  outside: model replies, completion orders, cancellations, failing appends, injected
  messages, and what tools still do after the prompt gave up on them. Transcript,
  requests, result and events are functions of the script (`PromptScript`), and what
  these come to is told of what the model, the tools and the callers did
  (`PromptMeaning`).
- **Compaction** (`Compaction`, `SortStability`, `SummaryChoice`, `SummarizeRetry`).
  Substituting summaries, the cut point, and retries with 64-bit delays.
- **Shared state** (`ActiveTools`, `MutationQueue`, `EditQueue`). State machines over
  every interleaving of setters, flushes, drains and starts, and of calls that lock a
  file, among them those of the edit tool.

`Text` has byte strings, lines and fields; `Numbers` minimum and maximum; `Wrappers` a
value that may be missing.
Loops of the source are loops here, proved against specification functions; objects
that the source updates are classes. Texts are sequences of bytes.

Where the code and its documentation disagree, or it does what a reader may not expect,
the code is followed:

- `compact.go` calls its sort of summaries stable. It is an exchange sort that is not:
  starts 1, 1, 0 come out with the first two exchanged (`Compaction.NotStable`). When
  it is stable is given exactly by `SortStability.StableExactly`; it is for starts
  recorded in order (`SortStability.SortedStays`), as the program records them, and
  whenever no two with equal starts are followed by one with a smaller start
  (`SortStability.NoneBehindTwoStable`).
- Compacting a session again has no effect on what the model is sent. All summaries are
  recorded from the start of the transcript, and the newest is used exactly if none
  before it covers a message (`SummaryChoice.NewestUsed`, `SummaryChoice.LaterIgnored`),
  while each that is recorded covers one at least (`SummaryChoice.PrepareCompaction`).
  `SummaryChoice.SecondIgnored` is an example.
- `summarize_retry.go` gives attempt n the delay BaseDelay x 2^(n-1) up to MaxDelay.
  Delays wrap around at 64 bits, so that holds for all attempts exactly if no doubled
  delay below the limit reaches 2^62 (`SummarizeRetry.BackoffLaw`). A negative
  MaxRetries allows one retry.
- `prompt.go` says that its last drain strands no change. A change made while a start
  is under way that then fails does stay queued until the next prompt
  (`ActiveTools.FailedStartStrands`), and this is the only way
  (`ActiveTools.StrandedExactly`). A drain that overlaps the next prompt can append
  changes out of order (`ActiveTools.OverlapReorders`). They are in order exactly if no
  append overtakes an earlier flush (`ActiveTools.OrderExactly`), so a caller that waits
  for the end of the drain keeps them in order (`ActiveTools.ApartInOrder`).
- The end of a prompt is not always its last event: a tool that was given up can tell what it
  came to between the delivery of the result and the close of the channel
  (`PromptScript.LeakedTellsLate`), even one that is not told as leaked
  (`PromptScript.CompletedTellsLate`). `PromptScript.EndIsLast` has the condition.
- A truncation can be put down to the line limit without that limit being reached, as
  `A` and a newline are under limits of two lines and one byte
  (`Truncate.BlamesAtOneByte`). That happens exactly if the final newline alone brings
  the text over the byte limit (`Truncate.HeadBlames`, `Truncate.TailBlames`).

## Model

| member | source | states |
|---|---|---|
| EditDistance.DistHalf | tools/editdiff.go:601-611 | edit distance and prefix lengths agree in parity: this is why a round looks at every second diagonal only |
| EditDistance.CommonSubseqBound | tools/editdiff.go:588-654 | no common subsequence of two prefixes is longer than the reference distance allows |
| EditDistance.CommonSubseqExists | tools/editdiff.go:588-654 | some common subsequence attains the bound, so the reference distance is old lines + new lines - 2 x longest common subsequence |
| EditDistance.FurthestStep | tools/editdiff.go:611-637 | one more edit: extending the furthest points of the two neighbour diagonals, and then along matches, reaches the furthest point of a diagonal |
| EditDistance.OtherParity | tools/editdiff.go:606-611 | a bound for d-2 edits and one for d-1 edits agree on a diagonal whose parity is that of d |
| MyersSearch.ExtractCommon | tools/editdiff.go:558-572 | a path is extended along equal tokens, exactly to the first pair that differs |
| MyersSearch.ExtendedOK | tools/editdiff.go:574-586 | one more added or removed token, joined to the last component if that is of the same kind, leaves a genuine path one step further on whose cost is one more |
| MyersSearch.RoundDone | tools/editdiff.go:601-650 | after a round over all diagonals between the bounds read at its start, the paths are the furthest for one more edit; the diagonals that pruning leaves out could not matter, nor could the extra ones kept because the upper bound is read once |
| MyersSearch.BoundsMove | tools/editdiff.go:643-648 | a bound set in an earlier round moves inward in every round |
| MyersSearch.Branch | tools/editdiff.go:618-633 | one of the two neighbour paths is extended by one edit: a token is added if that gets at least as far as removing one, and removed only if it does not; null is returned exactly when neither can be extended |
| MyersSearch.Advance | tools/editdiff.go:618-637 | one edit from the better neighbour and then the matches: a genuine path to the furthest point of its diagonal, all of whose edits are chosen so |
| MyersSearch.Visit | tools/editdiff.go:611-649 | looking at one diagonal, with the deletions from the map, keeps the state of the round or finishes with a path whose cost is the distance |
| MyersSearch.Search | tools/editdiff.go:588-654 | the search returns a genuine path of least cost, and the panic after its rounds cannot be reached |
| ChosenPath.NotBoth | tools/editdiff.go:631-635 | what is chosen at a diagonal for a number of edits is an addition or a removal, never both |
| ChosenPath.OneBest | tools/editdiff.go:588-654 | the path returned is determined by the two token lists: every edit chosen, there is no other path of the same cost |
| ChosenPath.RemovedAhead | tools/editdiff.go:631-635 | no added run of a chosen path is directly followed by a removed one |
| LineDiff.SplitOnNewlines | tools/editdiff.go:532-547 | fields and separators alternate, no field has a newline inside, and they glue back to the lines of the text |
| LineDiff.TokenizeLines | tools/editdiff.go:511-526 | the tokens of a text are exactly its lines with their endings |
| LineDiff.BuildDiffValues | tools/editdiff.go:661-687 | the component values are the stretches of old and new tokens that the path names, in order |
| LineDiff.DiffJoinsBack | tools/editdiff.go:553-592 | joining the non-added runs of a diff gives the old text byte for byte, and the non-removed ones the new text |
| LineDiff.NoDiffIsShorter | tools/editdiff.go:588-654 | every sequence of runs that leads from one text to the other changes at least as many lines as the distance |
| LineDiff.DistanceIsLcs | tools/editdiff.go:588-654 | the distance is the line counts minus twice the length of a longest common subsequence |
| LineDiff.ComputeLineDiff | tools/editdiff.go:553-655 | sound, joins back to both texts, no empty run and no two neighbours of a kind, exactly as many changes as the distance, at most as many as any rival diff, and the first run is the whole common prefix; no added run is directly followed by a removed one, and the diff is that of the chosen path |
| LineDiff.ChosenDiffUnique | tools/editdiff.go:553-655 | of the least diffs of two texts just one is that of a chosen path, so which one is returned is fixed |
| PatchReplay.OpenRange | tools/editdiff.go:750-767 | a change between hunks opens one that starts exactly min(context, length of the run before) lines earlier, holding those lines, never inside the hunk before |
| PatchReplay.CloseRange | tools/editdiff.go:784-798 | the hunk ends with the first min(context, length of the run) unchanged lines, its counts are the lengths of its two sides, and a longer run leaves room for the next hunk |
| PatchReplay.GroupEntry | tools/editdiff.go:747-804 | each entry does to the group what the specification of one step says, and leaves the hunks so far, the open hunk and both line counters consistent with the old and new lines |
| PatchReplay.GroupEntries | tools/editdiff.go:720-823 | for every diff and every context size, applying the hunks at their recorded starts, first to last, turns the old lines into the new ones; the hunks are those of the specification that the next two rows are about |
| HunkShape.HunksChange | tools/editdiff.go:720-823 | the changed lines of the hunks are those of the diff, each once and in order, and every hunk starts strictly behind the end of the one before |
| HunkShape.HunksTrimmed | tools/editdiff.go:750-798 | every hunk has a change, at most `context` unchanged lines at either end, and at most twice as many in a row inside |
| HunkShape.GroupingOrder | tools/editdiff.go:720-823 | in the hunks, too, no added line is directly followed by a removed one, if no added run of the diff is by a removed one |
| HunkContext.HunksFull | tools/editdiff.go:750-798 | every hunk has exactly `context` unchanged lines in front unless it begins with both files, and at its end unless it ends with both |
| UnifiedHunks.SplitLinesKeepEnds | tools/editdiff.go:701-713 | the lines of a value with their endings (one empty line for the empty value) |
| UnifiedHunks.FinishLines | tools/editdiff.go:806-820 | each raw hunk line loses its newline or is followed by the missing-newline marker |
| UnifiedHunks.ReadFinished | tools/editdiff.go:806-820 | reading finished lines back, markers included, gives the tagged lines that were printed |
| UnifiedHunks.PrintHunks | tools/editdiff.go:840-857 | a printed header, empty ranges shifted by one as POSIX has it, reads back as the hunk it prints |
| UnifiedHunks.BuildUnifiedHunks | tools/editdiff.go:720-823 | the hunks of any diff without empty runs replay its old lines into its new ones, hold exactly its changed lines, stand apart, and of a neat diff show just the context asked for, removed lines before the added ones that replace them |
| UnifiedHunks.UnifiedPatch | tools/editdiff.go:831-858 | the printed hunks, read back and applied to the old text, give the new text, missing final newlines included; they have as many changed lines as the distance, lie apart, show just the context asked for, put removed lines before added ones, and every line is in one piece and begins with a space, plus, minus or backslash |
| PatchText.NumberRead | tools/editdiff.go:853-853 | a number printed in decimals is read back |
| PatchText.HeaderRead | tools/editdiff.go:853-853 | the four numbers of a hunk header are read back from its line by a reader that checks every other byte of it |
| PatchText.ReadPrinted | tools/editdiff.go:853-854 | the lines of all hunks, one after the other, are taken apart again at their headers |
| PatchText.PathRead | tools/editdiff.go:842-857 | paths and hunks are read back from the whole text exactly if the path has no newline |
| PatchText.GenerateUnifiedPatch | tools/editdiff.go:831-858 | the text is the file header and the hunks of a patch that turns the old text into the new one with the least number of changes, just the context asked for and removed lines before added ones; with its marks checked it reads back as just that if the path has no newline |
| DisplayDiff.LineTold | tools/editdiff.go:906-987 | a row, or a line hidden without one, accounts for one line at its true old and new number |
| DisplayDiff.DiffRowsTell | tools/editdiff.go:876-993 | following the rows through the old lines, with all that they hide, gives the new lines |
| DisplayDiff.ShownNearChange | tools/editdiff.go:923-987 | a line of an unchanged run is shown, with its old number, exactly if it is one of the four behind a change or of the four before one; the first of the others leaves a gap if the run is next to a change, the rest nothing |
| DisplayDiff.RowsInOrder | tools/editdiff.go:900-993 | no row of an added line is directly followed by one of a removed line |
| DisplayDiff.HiddenRows | tools/editdiff.go:934-984 | all hidden lines of a run leave one gap row, and none if no change is next to the run |
| DisplayDiff.ShowWindow | tools/editdiff.go:923-987 | the four cases of an unchanged run show its first and last four lines next to a change |
| DisplayDiff.MarksChange | tools/editdiff.go:906-909 | a least diff has a changed run exactly if the texts differ |
| DisplayDiff.FirstChange | tools/editdiff.go:906-909 | the first changed run is the first or second of the diff, behind exactly the common lines |
| DisplayDiff.ShowParts | tools/editdiff.go:900-993 | the loop over the runs yields exactly the rows of the diff, with both counters right after every run |
| DisplayDiff.GenerateDiffString | tools/editdiff.go:876-993 | the rows of the one chosen least diff tell the whole change, with removed lines before the added ones that replace them; the first changed line is 0 exactly if the texts are equal, and otherwise 1 + the length of the longest common line prefix |
| LineEndings.StripBOM | tools/editdiff.go:89-94 | mark and rest join back to the text, and there is a mark exactly if the text begins with one |
| LineEndings.NormalizeClears | tools/editdiff.go:68-71 | normalized text has no carriage return, and text without any is left alone |
| LineEndings.NormalizeEach | tools/editdiff.go:68-71 | in a text with line endings of any kinds each becomes one newline, a pair as well as a lone return, and nothing else changes |
| LineEndings.DetectFirst | tools/editdiff.go:51-64 | the first newline of a text decides, whatever follows: CRLF exactly if it comes behind a carriage return |
| LineEndings.RestoreReads | tools/editdiff.go:68-80 | text without carriage returns, restored to either ending, normalizes to itself |
| LineEndings.ExpandBack | tools/editdiff.go:68-80 | a text whose carriage returns and newlines only come in pairs is restored exactly |
| LineEndings.RoundTrip | tools/editdiff.go:51-80 | detect, normalize and restore give back a text exactly if it has no carriage return, or only pairs |
| LineEndings.RestoredKind | tools/editdiff.go:75-80 | restored text has only pairs, or no carriage return at all, as the ending says |
| EditSplice.SplicedAppend | tools/editdiff.go:264-272 | replacing in two neighbouring stretches is replacing in both |
| EditSplice.SplicedWindow | tools/editdiff.go:319-321 | replacing inside a window of a text is replacing in the text |
| EditSplice.ReplaceLast | tools/editdiff.go:264-272 | replacing the last match leaves the places of the others valid |
| EditSplice.ApplyReplacements | tools/editdiff.go:264-272 | replacing from last to first yields the simultaneous replacement of all matches |
| EditSplice.SortSorts | tools/editdiff.go:446-446 | sorting by position orders the matches and loses none |
| EditSplice.SortStable | tools/editdiff.go:446-446 | matches at the same position keep their order |
| EditOverlay.SplitLinesWithEndings | tools/editdiff.go:200-213 | the scan cuts a text into its lines with their endings |
| EditOverlay.GetLineSpans | tools/editdiff.go:218-227 | each span is where its line stands |
| EditOverlay.TouchesIsOverlap | tools/editdiff.go:234-258 | a line is in the range of a match exactly if the two share a byte |
| EditOverlay.GetReplacementLineRange | tools/editdiff.go:234-258 | the lines from the first to the last byte of a match, or an error exactly if the lines do not hold all of it |
| EditOverlay.GroupsSound | tools/editdiff.go:296-310 | the groups keep every match in order, a group holds exactly the lines its matches touch, and no line stands in two groups |
| EditOverlay.OverlayKeepsUntouched | tools/editdiff.go:280-329 | the pieces of an overlay stand for all lines in order, each once, and a line keeps its original bytes exactly if no match touches it |
| EditOverlay.OverlayIsSplice | tools/editdiff.go:280-329 | when the original is the base, the overlay is the plain splice of all replacements |
| EditOverlay.Weave | tools/editdiff.go:312-328 | writing lines and replaced groups in turn yields exactly the pieces of the overlay, with every slice in range |
| EditOverlay.ApplyReplacementsPreservingUnchangedLines | tools/editdiff.go:280-329 | a line-count error exactly if the counts differ, a range error exactly if a match lies outside, and otherwise the overlay |
| EditEngine.IndexFrom | tools/editdiff.go:146-156 | the first occurrence, or -1 exactly if there is none |
| EditEngine.CountsOnce | tools/editdiff.go:375-377 | the count is at most one exactly if no two occurrences stand apart |
| EditEngine.CountIsMost | tools/editdiff.go:375-377 | any list of occurrences none of which reaches into the next is at most as long as the count |
| EditEngine.CountAttained | tools/editdiff.go:375-377 | and such a list of that length exists |
| EditEngine.OverlapCountsOnce | tools/editdiff.go:372-377 | a pattern whose end is also its beginning occurs twice in the text where the two overlap, and counts once, so it is not rejected as duplicate |
| EditEngine.MatchStands | tools/editdiff.go:426-444 | a located edit stands in the base where it was found, as its own text or the normalized one |
| EditEngine.OutsideOnlyIfEmpty | tools/editdiff.go:234-258 | the range error occurs for an empty text only |
| EditEngine.LocateEdits | tools/editdiff.go:426-444 | all matches in the order of the edits, or the first edit that is missing or duplicate |
| EditEngine.CheckOverlap | tools/editdiff.go:446-452 | neighbours in sorted order overlap exactly if the matches are not pairwise disjoint |
| EditEngine.OrderDoesNotMatter | tools/editdiff.go:397-470 | success and result are the same for every order in which the edits are given |
| EditEngine.ExplainedFails | tools/editdiff.go:397-470 | an error that is reported excludes success |
| EditEngine.ApplyEditsToNormalizedContent | tools/editdiff.go:397-470 | either all edits are located once, disjoint and replaced at once with a changed result, or the error names what is wrong; what success and errors mean for the edits as given is in the rows that follow |
| EditMeaning.SucceedsMeans | tools/editdiff.go:397-470 | told of the edits as given: applying them succeeds with a text exactly if each old text, with line feeds, is not empty, stands where its match does (at its first place, or at that of the normalized text in the normalized content) and is counted once there; each match brings the new text of its own edit; in order of place none reaches into the next; and the result is the splice, or its overlay, and differs from the content |
| EditMeaning.ErrorMeans | tools/editdiff.go:406-444 | an empty-text, missing or duplicate error names an edit whose old text is empty, occurs nowhere even normalized, or occurs twice apart normalized |
| EditMeaning.LiteralEdits | tools/editdiff.go:397-470 | for edits without carriage returns whose old texts all occur in the content, the result is the content with each old text replaced, at its first place, by its own new text |
| EditMeaning.LiteralSucceeds | tools/editdiff.go:397-470 | where normalization changes nothing, edits succeed if each old text is not empty, occurs, but not twice apart, their places are disjoint and the splice differs from the content |
| EditTool.EditedClear | tools/edit.go:147-163 | edits of text without carriage returns bring none in, spliced or overlaid |
| EditTool.FileRoundTrip | tools/edit.go:147-163 | strip, detect, normalize and restore give back the file exactly if its line endings are of one kind |
| EditTool.EditKeepsFormat | tools/edit.go:147-163 | after an edit the mark is kept, and every newline has a carriage return before it and there is no other, or there is none at all, as the first line had it |
| EditTool.EditedReads | tools/edit.go:147-163 | read, stripped of its mark and normalized again, the file written is exactly the updated text, unless that itself begins like a mark |
| EditTool.RunEdit | tools/edit.go:126-182 | done exactly if nothing aborts or fails and the edits succeed; then the file is the edited text in its format, the rows tell the change and the patch text prints one that performs it; otherwise the file is untouched, unless the write failed or the abort came after it |
| EditTool.PlanEdit | tools/edit.go:140-163 | what is written is the edit in the format of the file, and nothing is planned exactly when the edits are in error |
| Truncate.SplitLinesForCounting | tools/truncate.go:79-88 | the lines of a text without their newlines; a final newline opens none |
| Truncate.HeadKept | tools/truncate.go:143-162 | the largest number of leading lines within both limits |
| Truncate.TailKept | tools/truncate.go:204-232 | the largest number of trailing lines within both limits |
| Truncate.FromEndIsLongest | tools/truncate.go:270-282 | the kept end of a text is the longest that fits and does not begin inside a character |
| Truncate.TruncateStringToBytesFromEnd | tools/truncate.go:270-282 | the scan past continuation bytes yields exactly that end |
| Truncate.TruncateHead | tools/truncate.go:113-184 | all of the text, or its longest run of leading whole lines within both limits, or the mark that the first line is too long, with every field |
| Truncate.TruncateTail | tools/truncate.go:192-258 | all of the text, or its longest run of trailing whole lines within both limits, or the end of its last line, with every field |
| Truncate.HeadIsLongest | tools/truncate.go:113-184 | of a text too long, the head is the most leading whole lines that fit: with one line more they are too many or too long; or nothing if the first line is too long |
| Truncate.TailIsLongest | tools/truncate.go:192-258 | the tail likewise from the end, or the end of the last line if that alone is too long |
| Truncate.HeadBlames | tools/truncate.go:113-184 | for all options, a shortened head shows fewer lines than the line limit and yet names that limit exactly if the text ends in a newline, is one byte too long and has fewer lines than the limit |
| Truncate.TailBlames | tools/truncate.go:192-258 | the same for the tail, but for the empty text under a negative byte limit, which it cuts to nothing as well |
| Encoding.DecodeEncoded | tools/shell_output.go:235-248 | the bytes of a character, decoded by the table of RFC 3629 (sections 3 and 4), are that character, for every scalar value |
| Encoding.EncodeDecoded | tools/shell_output.go:235-248 | and no other bytes decode to it |
| Encoding.ReadBack | tools/shell_output.go:235-248 | a text is read as just the characters it was made of |
| ShellOutput.CleanOne | tools/shell_output.go:234-248 | a character is kept exactly if it is tab, newline, or neither below 0x20 nor an annotation mark (U+FFF9 to U+FFFB) |
| ShellOutput.CleanOrdinary | tools/shell_output.go:234-248 | cleaned text has such characters only, and text of such characters is left alone |
| ShellOutput.TailLegible | tools/shell_output.go:194-228 | truncating brings no control byte in |
| ShellOutput.CleanText | tools/shell_output.go:127-127 | dropping carriage return bytes after sanitizing is dropping those characters |
| ShellOutput.TrimAgain | tools/shell_output.go:176-176 | trimming the kept end and the next chunk is trimming the whole stream, if chunks begin at characters |
| ShellOutput.TrimKeepsMost | tools/shell_output.go:176-176 | trimming gives up at most three bytes more than it must |
| ShellOutput.OpenAppend | tools/shell_output.go:135-142 | the bytes after the last newline, from those before and the last newline of the chunk |
| ShellOutput.LinesCounted | tools/shell_output.go:197-200 | completed lines and an open one are the lines of the whole stream |
| ShellOutput.TailOfEnd | tools/shell_output.go:194-228 | the truncated tail of a text depends only on its last bytes, but for the totals |
| ShellOutput.TailOfKept | tools/shell_output.go:194-228 | the kept end of a stream has the truncated tail of the whole stream |
| ShellOutput.ShellCaptureState.ObserveChunk | tools/shell_output.go:126-179 | after every chunk the kept end is the whole stream trimmed once, all counters are those of the stream, spilling has begun exactly if it is too long, the path is that of the file created at the first overflow, and unless a write failed the file is the whole stream |
| ShellOutput.ShellCaptureState.Snapshot | tools/shell_output.go:184-228 | output and every truncation field are those of truncating the whole stream |
| ShellOutput.ExecuteShellWithCapture | tools/shell_output.go:280-316 | for all chunks however cut: each snapshot and the final result are those of the stream so far, with the path created when it first overflowed and none before; a result is refused exactly if running or a spill write failed, and an overflowing stream stands in the file in full. Read as characters, the output (or the file, if the output was cut) is all that was received but control characters and annotation marks; no output or snapshot has a control byte but tab and newline |
| ShellOutput.PathOfOverflow | tools/shell_output.go:150-174 | the path named at the end is that of the file created for the chunk that first made the output too long, or none if it could not be created |
| ReadTool.WindowShown | tools/read.go:242-264 | truncating the text of some lines shows the longest part of them that fits, unless already the first is too long |
| ReadTool.ReadTextToolResult | tools/read.go:189-276 | an offset error exactly beyond the end; otherwise the longest part of the window asked for, and the offset to go on with exactly if lines remain |
| ReadTool.LimitHolds | tools/read.go:209-240 | a limit of n shows up to n lines from the offset on: exactly n (none for a negative one), unless the file ends before or a page is cut |
| ReadTool.FollowOffsets | tools/read.go:246-273 | following the offsets from line 1, with no limit or a positive one, ends; the pages joined by newlines are the file exactly if no line exceeds the limit, and otherwise all lines before the first that does |
| ToolBatch.Batch.Complete | prompt.go:764-786 | one completion fills its own slot and no other |
| ToolBatch.Batch.Leaked | prompt.go:696-704 | exactly the runnable calls that have not completed, in source order |
| ToolBatch.MissingAre | prompt.go:696-704 | the calls a batch leaves behind are those that can run and have not completed, each once and in source order |
| ToolBatch.AwaitToolBatch | prompt.go:672-795 | whatever the calls do and in whatever order, a finished batch has the outcomes of the tools in source order; one given up has leaked exactly the runnable calls that had not completed |
| ToolBatch.NothingAfterEnds | prompt.go:753-788 | once every call has told its result, none can do anything more |
| ToolBatch.AllAnswered | prompt.go:813-842 | the replies are one for each call in order exactly if no call suspends |
| ToolBatch.Conclude | prompt.go:797-842 | if all calls ask to terminate nothing is persisted; otherwise one reply for each call that does not suspend; what the replies say is in the rows of `PromptMeaning` |
| PromptScript.ClosedAnswersAll | prompt.go:288-386 | closed turns have one result for every call, in the same order |
| PromptScript.AddsTurn | prompt.go:288-386 | what a round appends is its turn, whole or up to the append that fails, and it fails exactly if the turn is longer than what the session takes |
| PromptScript.GoesOnCloses | prompt.go:288-386 | a round after which the prompt goes on has appended a whole turn with one result for every call |
| PromptScript.CompletesWhole | prompt.go:304-386 | so has one that completes the prompt, unless all its calls ask to terminate, when it has no result at all, or some suspend, when theirs are missing |
| PromptScript.AbandonedAddsNothing | prompt.go:696-704 | calls cancelled before they run, or given up while they do, leave no result; nothing is appended behind the calls, and the prompt ends as its cancellation says |
| PromptScript.TurnAt | prompt.go:288-386 | turn i of the transcript is that of round i |
| PromptScript.ToolsTell | prompt.go:716-842 | the events of a finished batch agree with its results: each call that ran has told exactly the recorded result, once, and each that was refused is told as an error instead |
| PromptScript.LeakedToldNothing | prompt.go:753-788 | a call that is told as leaked has not told a result before |
| PromptScript.EndIsLast | prompt.go:155-191 | the end of the prompt is its last event exactly if calls left behind tell nothing between the result and the close, and they can only if a wait gave up when not all had ended |
| PromptMeaning.ReplyInPlace | prompt.go:797-842 | told of the messages and of what the tools did: if not all calls terminate and none suspends, the i-th result answers the i-th call, with the content and error flag the tool returned, or the text of the refusal, the error or the hook, flagged as an error |
| PromptMeaning.ReplyMeans | prompt.go:797-842 | the same where some calls suspend, for each other call at its place among those |
| PromptMeaning.OtherReplies | prompt.go:616-628 | there is no result if all calls terminate, and the error of a cut-off for each call of a reply cut off |
| PromptMeaning.ToldMeans | prompt.go:764-842 | the event that tells the result of a call has the content and error flag of its reply |
| PromptMeaning.CutOffTells | prompt.go:616-628 | a call of a reply cut off is told to end with that error |
| PromptMeaning.TurnHolds | prompt.go:288-610 | a round appends, in this order and as far as there is room, the text that was streamed, the calls, their results, the changes queued, and what is injected |
| PromptMeaning.AbandonedHolds | prompt.go:696-704 | of calls that are abandoned only the text and the calls themselves are appended |
| PromptMeaning.WhatIsInjected | prompt.go:337-384 | a steer goes before a follow-up: a round after which the prompt goes on ends with the steer if there is one, else with the follow-up if the model made no calls, and injects nothing more; any other round injects nothing |
| PromptMeaning.GoesOnExactly | prompt.go:288-386 | the prompt goes on exactly if the turn was done, not all tools asked to terminate, none suspended, no hook stops it, there is a steer, or calls and no cancellation, or no calls and a follow-up, and the session takes every message |
| PromptMeaning.CompletesExactly | prompt.go:304-386 | it completes exactly if the session takes the turn, and all tools terminate, one suspends, or a hook stops it, or nothing is left to do |
| PromptMeaning.FailsAs | prompt.go:390-420 | any other ending but that of a failing session is that of a failure the round met: stopped, cancelled, or the error |
| PromptMeaning.SuspendedMeans | prompt.go:797-842 | the result says suspended exactly if a tool asked to suspend in a finished batch of which not all terminate, and its turn was appended |
| PromptMeaning.RoundTells | prompt.go:155-191 | besides what its tools tell, a round tells first its start, then its end if what the model said was appended, the failure of the turn unless it is a cancellation, and just the message that was injected |
| PromptMeaning.UpdatesTold | prompt.go:753-788 | the progress that calls of a finished batch report is told, all of it and in order |
| PromptMeaning.LeaksTold | prompt.go:696-704 | if the wait gives up, the calls told as leaked are those that could run and had not completed, once and in order; no other is ever told so |
| PromptScript.LeakedTellsLate | prompt.go:753-788 | a run in which a leaked call tells its result behind the end of the prompt |
| PromptScript.CompletedTellsLate | prompt.go:779-786 | the same with no leak: the call had completed but not yet told its result when the wait gave up |
| PromptScript.RequestAnswered | prompt.go:424-467 | request i is made with the earlier messages and what the rounds before it added, with one result for every call, in order |
| PromptScript.ContextAnswered | prompt.go:424-424 | the context sent with request i is that of the earlier messages with all calls and results of the rounds before it behind, for all summaries of earlier messages |
| AgentLoop.PromptRun.Emit | prompt.go:155-172 | no event is sent once the channel is closed; before, each is, in order |
| AgentLoop.PromptRun.AppendTranscript | prompt.go:210-218 | session and transcript take the same messages, up to the first that fails |
| AgentLoop.PromptRun.EmitLeaks | prompt.go:696-704 | one leak event for each call left behind, in source order, among what those calls still tell |
| AgentLoop.PromptRun.RunBatch | prompt.go:716-795 | the events of a batch are its refusals, what its calls tell, and when the wait gives up the leaks; it ends with the outcomes in source order, or with the calls that leaked |
| AgentLoop.PromptRun.FailTruncatedToolCalls | prompt.go:616-628 | every call of a reply that was cut off is answered, in order, each told before it is appended, up to the first that the session does not take |
| AgentLoop.PromptRun.ExecuteTools | prompt.go:716-845 | a cancelled or abandoned batch adds no result; otherwise the results are the outcomes of the tools in source order, of which nothing is persisted if all terminate, and those that suspend are held back; the events are those of the batch |
| AgentLoop.PromptRun.RunOneTurn | prompt.go:390-610 | a turn asks the provider with the transcript so far, unless stopped before; it adds the streamed text and calls and then the replies to them, up to the first append that fails, sets the flags by the results, and emits the events of the round |
| AgentLoop.PromptRun.AfterTurn | prompt.go:304-384 | behind a turn come the changes queued in this round and then its steer, or its follow-up if the turn had no calls and no steer came, unless the prompt terminated, suspended or is to stop; the ending follows from these |
| AgentLoop.PromptRun.PlayRound | prompt.go:288-385 | each round adds exactly what its script says, and goes on, or ends the prompt with its one result, exactly as the script decides |
| AgentLoop.PromptRun.Loop | prompt.go:261-386 | the transcript is the earlier messages, the turns of all rounds before the first that ends the prompt, what that round adds, and the changes drained late; there is one request for each round that asks, made with all before it; exactly one result is delivered, which does not hold the late changes; the events are those of the rounds, the end, and what calls left behind tell before the close |
| AgentLoop.PromptRun.PlayRounds | prompt.go:288-385 | rounds are played up to the first that ends the prompt, or all of them |
| AgentLoop.PromptRun.Drain | prompt.go:261-271 | after the result the changes still queued are appended in order, as many as the session takes, and the channel is closed once |
| AgentLoop.PromptRun.CloseUp | prompt.go:155-179 | behind the result, calls left behind add their events and nothing else until the close, and nothing at all after it |
| Compaction.SortSound | compact.go:205-214 | the exchange sort orders the summaries by start and loses none |
| SortStability.StableExactly | compact.go:205-214 | for any list without repeated entries: those with equal starts keep their order exactly if, for all v and n, the number of entries below v recorded after exactly n that start at v is a multiple of n |
| SortStability.NoneBehindTwoStable | compact.go:205-214 | they do if no two with equal starts are followed by one with a smaller start |
| SortStability.SortedStays | compact.go:205-214 | a list recorded in order of start comes out unchanged, as when all start at 0 |
| Compaction.FirstRecordedLeads | compact.go:205-222 | of several summaries with the least start, the one recorded first comes first |
| SummaryChoice.PrepareCompaction | compact.go:357-376 | compacting cuts behind the first message at least and before the end, or does nothing: with no message, behind a summary, or with everything but the first message below the budget |
| SummaryChoice.NewestUsed | compact.go:201-236 | of summaries recorded from the start, as compacting records them, the newest is used exactly if all before it cover nothing, and otherwise the choice is the same as without it |
| SummaryChoice.LaterIgnored | compact.go:201-236 | once one of them covers something, no later one changes the context |
| SummaryChoice.OnlyFirstCounts | compact.go:201-236 | if the first covers something it is the only one used |
| SummaryChoice.SecondIgnored | compact.go:201-236 | a second compaction that covers more leaves the context of the first |
| Compaction.ContextIsReference | compact.go:216-236 | index by index, the context is the uncovered messages in order, without bookkeeping, and one summary in place of each chosen range |
| Compaction.ChosenApart | compact.go:218-222 | the chosen ranges do not overlap |
| Compaction.ChosenOrInside | compact.go:218-222 | a summary is chosen, or begins inside a range that is |
| Compaction.ExcludeBookkeeping | compact.go:240-253 | exactly the bookkeeping entries are stripped, in both of its paths |
| Compaction.ContextTexts | compact.go:216-236 | the summary messages of the context say the texts of the chosen summaries, in order |
| Compaction.BuildLLMContext | compact.go:201-236 | for all summaries whose ranges lie in the transcript, the context is the reference definition for the ranges chosen |
| Compaction.ContextGrows | compact.go:201-236 | messages appended later come at the end of the context, without bookkeeping, for all summaries of what was there before |
| Compaction.FindCutPoint | compact.go:382-397 | the nearest valid index at or after the last one from which the messages reach the budget, that index itself if none is valid, and 0 if the budget is never reached |
| SummarizeRetry.Normalized | summarize_retry.go:34-42 | a positive delay is kept, and any other is one second for the base and one minute for the limit, each on its own |
| SummarizeRetry.Backoff | summarize_retry.go:47-56 | the loop, with its wrap-around, computes the delay that the lemmas speak of |
| SummarizeRetry.BackoffLaw | summarize_retry.go:44-56 | the delays are min(base x 2^(n-1), limit) for every attempt exactly if no doubled delay below the limit reaches 2^62 |
| SummarizeRetry.WrapsAround | summarize_retry.go:47-56 | with the largest limit and a base of 2^62 the second delay is negative |
| SummarizeRetry.SafeLimit | summarize_retry.go:47-56 | a limit of at most 2^62 is always safe |
| SummarizeRetry.DelaysGrow | summarize_retry.go:44-56 | under the law the delays never fall, and stay positive and within the limit |
| SummarizeRetry.RoundsAt | compact.go:510-540 | in what the hook is told, retry k is announced with its number and delay, and then started |
| SummarizeRetry.SummarizeWithLLM | compact.go:503-551 | at most 1 + MaxRetries calls, only transient failures are retried, and the hook is told nothing or every retry in turn and one end that says how it went |
| ActiveTools.RunningIsHolders | agent.go:128-139 | in every interleaving the running flag is the number of slot holders, never above one |
| ActiveTools.ChangesConserved | setters.go:93-124 | in every interleaving each accepted change is appended exactly once, still queued, on its way, or lost to an append that failed |
| ActiveTools.StrandedExactly | prompt.go:261-271 | after any run that leaves no prompt starting, looping or ending, the queue is not empty exactly if a change was queued during a start that then failed, and nothing has been taken from the queue since it was |
| ActiveTools.FailedStartStrands | agent.go:128-139 | a change queued while a start is under way that then fails is left with no prompt to flush it |
| ActiveTools.QueueOrder | prompt.go:230-241 | as long as no append overtakes an earlier flush that has entries left and appends succeed, the changes queued are those appended, those on their way and those still queued, in this order |
| ActiveTools.OrderExactly | prompt.go:230-271 | for distinct changes and appends that succeed, changes are appended in queue order exactly if no append ever overtakes an earlier flush that has entries left |
| ActiveTools.ApartInOrder | prompt.go:230-271 | a caller that starts a prompt only when the last one is done with its drain always gets them in order |
| ActiveTools.OverlapReorders | prompt.go:261-271 | when the drain of one prompt overlaps a flush of the next, a later change can be appended first |
| ActiveTools.ValidateToolConfig | active_tools.go:27-39 | a set of names is accepted exactly if all are registered and each comes once |
| ActiveTools.AgentFields.SetActiveTools | setters.go:93-124 | a set with a name that is unknown or comes twice is refused without effect; otherwise the change is in force, and queued while a bound prompt runs, or appended at once |
| ActiveTools.AgentFields.FlushPendingActiveTools | prompt.go:230-241 | the whole queue is taken and appended in order, up to the first append that fails |
| MutationQueue.OneAtATime | tools/mutation_queue.go:62-74 | after any run at most one call of a key is at work |
| MutationQueue.WaitsOnlyForSameKey | tools/mutation_queue.go:48-74 | after any run a waiting call can acquire its lock, or a call of the same key is at work |
| MutationQueue.StepKeeps | tools/mutation_queue.go:62-74 | every step of any call, a write that fails and leaves other bytes among them, keeps each file equal to the edits applied in the order of acquisition, but for the one under way |
| MutationQueue.Linearizable | tools/mutation_queue.go:62-74 | after any run, a file that nobody works on is all edits of its key that were not given up, applied in the order in which their calls acquired the lock; a failed write counts as the edit to what it left |
| EditQueue.EditsLinearize | tools/edit.go:109-163 | under concurrent edit calls, a file that no call works on is the outcome of the edits that succeeded, or of what a failed write left, each made of what those before it had left; rejected edits leave it alone |

## Left out

- ComputeLineDiff: line counts are bounded by 2^30, the number that stands for infinity in the diagonal bounds; beyond it the pruning is not covered.
- GenerateUnifiedPatch: the same bound.
- GenerateDiffString: the same bound; rows are records, so padding and the prefix characters are not modelled.
- RunEdit: the same bound on the text before and after; the messages of errors are not modelled.
- Count: for an empty text the gaps are counted by bytes, not by characters; only whether there is more than one matters to the edits.
- ApplyEditsToNormalizedContent: the overlap error names the two matches, not the numbers of their edits.
- ObserveChunk: a chunk comes in as characters, so a character split between two chunks, which the source turns into replacement characters, is not modelled.
- Spill: what a failed write leaves in the file is not modelled.
- AwaitToolBatch: the bound on parallel tools is not modelled; it only limits which completion orders occur. A tool that reports progress after it has returned is not modelled.
- Loop: it runs over a finite script of rounds, so every statement is about a run up to some round; events that pass on the stream of the model (message starts and ends, deltas, starts of tool calls, retries) and timing are not modelled, and an event that is dropped because the buffer stays full counts as sent. A session failure is reported as an error even where a cancellation caused it.
- BuildLLMContext: a summary whose range ends before index 0, for which the source can fail, is excluded.
- NewBranchSummaryMessage: escapes in the quoted text are not counted in its size, which no result depends on.
- FindCutPoint: the rest of a compaction, its prompts and hooks, is a sequence of calls to what is modelled.
- Linearizable: resolving a path to its key is not modelled; keys are given.
- NormalizeForFuzzyMatch: its tables are not modelled; it is a parameter, and may change the number of lines, which is why the overlay has an error for that.
- The environment: files, processes, providers, clocks, JSON and schemas are inputs or left out.
- Other setters, snapshots, skills, image handling, path healing and the in-memory sessions: they would add easy members only.
