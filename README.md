# bt day planner: command grammar and time-grid addressing

A Dafny model of the core of `bt`, a terminal day planner. It splits a day into 96 fifteen-minute
time slices and lets the user assign slices to activities with short commands.

The model covers three parts of the program:

- **The command language** (input.go).
  - `parseInput` lower-cases a line. It then matches the literal commands (`q`, `+`, `n`, `t`, `y`, …), or hands lines that start with `t` or `u` to the entry parsers.
  - `parseTimeEntry` and `parseUnassignment` accept a *slice set* (`t3, t6`, `t3t6`, …) or a *slice range* (`t7-t10`, `t7-10`).
  - `validRange` and `validActivity` check bounds, `parseTimeSlices` extracts the numbers of a slice set, and `expandRange` lists a range.
  - The three regular expressions of input.go:47, 50 and 83 are modelled as a grammar, not as a regex engine. Module `Grammar` has a syntax tree, a renderer from tree to text, and greedy scanners. The scanners are proved to recognise every rendering, and each rendering only. The submatches the Go code reads come from the scanned tree.
- **The day grid** (data.go).
  - A `Day` has exactly 96 slices.
  - `currentTimeSlicesFor` is the window of `W` slices ending at the clock time, kept inside the day.
  - `activeActivities` and `activityByID` work on the configured activities.
  - `sparseTimeSliceActivityMap` is the sparse map a day is stored as. The rebuild loop of `loadData` turns that map back into a day.
- **The display text** (ui.go). `timeDisplayFor` turns a slice into its `H:MM - H:MM ` label. `setTimeSliceTextFor` and `setActivitiesFor` number the two list panes.

Clock time and configuration are inputs to the model:

- Wall-clock time becomes the parameters `hour` and `minute`.
- The number of slices on screen, `timeSlicesDisplayed`, is not defined in the files modelled. It is the parameter `W`, with `1 <= W <= 96`.
- The number of active activities is the parameter `N`.
- The configuration and the current day are passed as values.

Slice-set numbers are not checked against the window. Only the endpoints of a range are checked (`validRange`). So `t99 a1` is accepted and yields slice 99, as `InputExamples.UncheckedSliceNumber` shows. The model follows the code.

Modules:
- `Text`: digits, `strconv.Atoi`, `fmt.Sprint`, lower-casing, joining and counting lines.
- `Grammar`: the three regular languages.
- `Input`: input.go.
- `InputExamples`: the table of input_test.go and the examples in the comments of input.go.
- `Data`: data.go.
- `Ui`: ui.go.

## Model

| member | source | states |
|---|---|---|
| Text.Atoi | input.go:166-169 | A numeral gives its decimal value; the empty capture of an unused group gives 0 |
| Text.NatToStringInjective | data.go:157 | Distinct slice indices give distinct decimal keys, so no two slices share a key in the stored map |
| Text.LowerIdempotent | input.go:95 | Lower-casing twice is lower-casing once |
| Grammar.DigitRun | input.go:47 | The digit run scanned for `[0-9]+` is all digits and is followed by a non-digit or the end |
| Grammar.SpaceRun | input.go:47 | The white-space run scanned for `\s*` is all white space and is maximal |
| Grammar.ScanToken | input.go:47 | A token `t[0-9]+,?\s?` is found exactly when the text starts with `t` and a digit; the token rendered back plus the rest is the text |
| Grammar.ScanTokens | input.go:47 | The greedy repetition of tokens consumes a well-formed token list whose rendering is a prefix of the text, and stops where no token starts |
| Grammar.ScanTokensRendered | input.go:47 | Scanning the rendering of a token list gives that list back, whatever the separators |
| Grammar.NoDashInTokens | input.go:47 | A slice set never contains `-`, so the two alternatives of the regex never match the same text |
| Grammar.ScanRange | input.go:47 | A scanned range is `t<digits>-` plus an optional `t` plus `<digits>`, and re-renders to the text it was scanned from |
| Grammar.ScanRangeRendered | input.go:47 | Scanning a rendered range returns its two numerals and whether the second `t` was written |
| Grammar.ScanActivity | input.go:47 | The tail `\s*a[0-9]+$` is white space, `a` and a numeral that reaches the end |
| Grammar.ScanActivityRendered | input.go:47 | Scanning a rendered activity tail gives its white space and numeral back |
| Grammar.RenderEntryShape | input.go:47 | Every accepted entry contains `a` and ends in a digit |
| Grammar.ScanEntry | input.go:47 | Whatever the entry scanner accepts is a well-formed entry that renders to exactly the input (soundness) |
| Grammar.Normalize | input.go:47 | Every entry has a canonical form with the same text, the same activity and the same slice numbers |
| Grammar.SetEntryRejectsRange | input.go:47 | Text of the range shape is never accepted as a slice set |
| Grammar.ScanEntryRendered | input.go:47 | Every well-formed entry is accepted, and its scan is the canonical form of that entry (completeness) |
| Grammar.ScanUnassign | input.go:83 | Whatever the unassignment scanner accepts is a well-formed `u\s*` plus slice set or range that renders to exactly the input |
| Grammar.ScanUnassignRendered | input.go:83 | Every well-formed unassignment is scanned back to itself |
| Grammar.MatchesSliceSetRendered | input.go:50 | The sanity check of `parseTimeSlices` accepts a rendered token list exactly when it has at least one token |
| Grammar.RangeIsNotSliceSet | input.go:50 | The sanity check rejects every rendered range |
| Input.ValidRange | input.go:196-209 | An empty start string is valid; otherwise valid exactly when 0 < start < end <= W |
| Input.ValidActivity | input.go:212-219 | Valid exactly when 1 <= index <= N |
| Input.Interval | input.go:223-229 | The list s, s+1, …, e: length e-s+1 when s <= e, empty otherwise, element k is s+k |
| Input.ExpandRange | input.go:223-229 | The counting loop returns `Interval(start, end)`; its first element is the start and its last the end |
| Input.Compact | input.go:182-183 | Deleting the matches of `\s*,*` leaves no white space and no comma |
| Input.ParseTimeSlices | input.go:177-193 | The loop returns `SliceNumbers(entry)`: the numbers of a matched slice set, and nothing for any other text |
| Input.NextSliceNumber | input.go:185-190 | Each turn of the loop appends the next number of the slice set |
| Input.PiecesOfSliceSet | input.go:182-190 | After compacting and splitting on `t`, piece i (from 1) holds the i-th slice number, and the first piece is blank |
| Input.SliceNumbersOfTokens | input.go:177-193 | The numbers extracted from a rendered slice set are its tokens' values, in written order, duplicates kept, separators ignored |
| Input.SliceNumbersOfRange | input.go:177-193 | Range text yields no slice-set numbers |
| Input.MatchEntry | input.go:47 | The captured activity is a numeral; the range captures are both numerals or both empty |
| Input.MatchUnassign | input.go:83 | The range captures are both numerals or both empty |
| Input.MatchedRangeHasNoSet | input.go:47 | When the range alternative matched, the time capture yields no slice-set numbers |
| Input.ParseTimeEntry | input.go:155-172 | A rejected entry is exactly (no slices, [0,0], 0, err). An accepted one has 1 <= activity <= N, and either range [0,0] or no slices with 0 < r0 < r1 <= W |
| Input.ParseUnassignment | input.go:136-150 | A rejected unassignment is exactly (no slices, [0,0], err). An accepted one has range [0,0], or no slices with 0 < r0 < r1 <= W |
| Input.ParseSetEntry | input.go:155-172 | A written slice set with activity `a` parses to its values in order when 1 <= a <= N, and is rejected otherwise |
| Input.ParseRangeEntry | input.go:155-172 | A written range `tA-tB aC` (second `t` optional) parses to range (A, B) when 0 < A < B <= W and 1 <= C <= N, and is rejected otherwise |
| Input.ParseTimeEntryInGrammar | input.go:155-172 | Only text of the entry grammar is accepted |
| Input.ParseSetUnassignment | input.go:136-150 | `u` plus a written slice set parses to its values; a bare `u` gives no slices and no error |
| Input.ParseRangeUnassignment | input.go:136-150 | `u` plus a written range parses to it exactly when 0 < A < B <= W |
| Input.ParseUnassignmentInGrammar | input.go:136-150 | Only text of the unassignment grammar is accepted |
| Input.ParseInput | input.go:94-131 | An assignment always names at least one slice and an activity in [1, N]. Only a line that is not a literal command assigns or unassigns |
| Input.AssignedSlicesNonEmpty | input.go:112-119 | An accepted entry starting with `t` addresses at least one slice |
| Input.ParseInputIgnoresCase | input.go:95 | The dispatcher gives the same command for a line and for its lower-cased form |
| Input.AssignedRangeDisplayed | input.go:115-116 | An assigned range covers only slice numbers in [1, W] |
| Input.EntryIsNotKeyword | input.go:96-112 | No entry text is a literal command |
| Input.UnassignIsNotKeyword | input.go:96-120 | No text starting with `u` is a literal command |
| Input.ParseInputSetEntry | input.go:112-119 | A slice-set entry, in any case, assigns its written slices when the activity is in [1, N], and does nothing otherwise |
| Input.ParseInputRangeEntry | input.go:112-119 | A range entry assigns every slice from start to end inclusive when the range and activity are valid, and does nothing otherwise |
| Input.ParseInputUnassign | input.go:120-127 | A line starting with `u` gives the unassignment's slices, or no command when it is rejected |
| Input.ParseInputSetUnassignment | input.go:120-127 | A slice-set unassignment releases exactly the written slices |
| Input.ParseInputRangeUnassignment | input.go:120-127 | A range unassignment releases every slice of a valid range, and does nothing otherwise |
| InputExamples.EntryShape | input.go:47 | An accepted entry contains `a` and ends in a digit |
| InputExamples.ShapeRejects | input.go:155-165 | Text without `a`, or not ending in a digit, is rejected with the zero result |
| InputExamples.NoTokenRejects | input.go:155-165 | Text that starts with neither a token, white space nor `a` is rejected |
| InputExamples.MalformedEntriesRejected | input_test.go:26-31 | `t1`, `t1 a`, `t1a`, `t a1`, `ta1` and `ta` are rejected |
| InputExamples.SingleSliceRangeRejected | input_test.go:32 | `t1-t1 a1` is rejected: a range must end after it starts |
| InputExamples.ZeroStartRangeRejected | input_test.go:33 | `t0-t1 a1` is rejected: slice numbers start at 1 |
| InputExamples.BackwardRangeRejected | input_test.go:34 | `t2-t1 a1` is rejected |
| InputExamples.RangePastWindowRejected | input_test.go:35 | `t1-t(W+1) a1` is rejected, for every window size W |
| InputExamples.SingleSliceAccepted | input_test.go:37-38 | `t1 a1` and `t1a1` give slice 1, activity 1 |
| InputExamples.SliceSetsAccepted | input_test.go:39-43 | `t3, t6 a2`, `t3,t6 a2`, `t3 t6 a2`, `t3t6 a2` and `t3t6a2` all give slices [3, 6], activity 2 |
| InputExamples.RangesAccepted | input_test.go:44-47 | `t7-t10 a5`, `t7-10 a5`, `t7-t10a5` and `t7-10a5` all give range (7, 10), activity 5 |
| InputExamples.UncheckedSliceNumber | input.go:166 | `t99 a1` is accepted with slice 99, whatever W is |
| InputExamples.DottedCapitalIKeywords | input.go:95-106 | `QUİT` is the quit command and `PRİOR` the previous-day command, because lower-casing maps `İ` to `i` |
| InputExamples.BareTIsToday | input.go:107-108 | A bare `t` or `T` is the today command, not an entry |
| InputExamples.UpperCaseRangeAssigned | input.go:95-119 | `T7-T10 A5` assigns slices 7, 8, 9 and 10 to activity 5 |
| InputExamples.BareUnassignment | input.go:120-127 | A bare `u` is an unassignment of no slices |
| InputExamples.SingleSliceUnassignment | input.go:60 | `u t1` releases slice 1 |
| InputExamples.UnassignThreeAndSix | input.go:83 | Any white space after `u`, and any separator allowed between tokens, releases slices 3 and 6 |
| InputExamples.SliceSetUnassignment | input.go:61-65 | `u t3, t6`, `u t3,t6`, `u t3 t6`, `u t3t6` and `ut3t6` all release slices 3 and 6 |
| InputExamples.RangeUnassignments | input.go:66-67 | `u t7-t10` and `ut7-10` release slices 7, 8, 9 and 10 when the window holds 10 slices |
| Data.WindowStart | data.go:84-101 | The start lies in [0, 96-W]. It is the nominal start `hour*4 + minute/15 + 1 - W` when that fits, 0 below, and 96-W above |
| Data.CurrentTimeSlicesFor | data.go:82-105 | Exactly W slices; element k is the day's slice at start + k |
| Data.UpperClampUnreachable | data.go:94-100 | For hour < 24 and minute < 60 the nominal start never exceeds 96-W |
| Data.NowInWindow | data.go:82-105 | For a real clock time the now slice lies inside the window |
| Data.WindowEndsAtNow | data.go:86-94 | When not clamped, the window's last slice is the now slice |
| Data.WindowIsConsecutive | data.go:104 | On an indexed day the window holds consecutive indices in ascending order |
| Data.ActiveOf | data.go:121-129 | Exactly the active activities, each kept, none added |
| Data.ActiveOfAppend | data.go:121-129 | Filtering keeps the configuration order |
| Data.ActiveActivities | data.go:121-129 | The loop returns `ActiveOf(config.activities)` |
| Data.ActivityByID | data.go:109-118 | The first activity with the id, or the zero activity when none has it |
| Data.SparseOfEntries | data.go:153-161 | Key i is present exactly when slice i is assigned, and holds `activity_id` = its activity |
| Data.SparseOfSlice | data.go:153-161 | After the first n slices, key i is present exactly when slice i < n is assigned, with its activity |
| Data.SparseOfKeys | data.go:153-161 | After the first n slices, every key is the decimal index of an assigned slice among them |
| Data.SparseTimeSliceActivityMap | data.go:153-161 | The loop builds the sparse map: key i exactly for assigned slices, with their activity |
| Data.LoadDay | data.go:64-74 | The rebuild loop gives slice i the index i and the stored activity, or none |
| Data.DecodeSparseMap | data.go:64-74 | Storing then loading a day gives slice i index i and restores every activity |
| Data.SparseMapRoundTrip | data.go:64-74 | A day whose slices know their index is restored exactly |
| Ui.TimeDisplayClock | ui.go:168-188 | The label shows the clock times 15·slice and 15·slice + 15 minutes after midnight |
| Ui.FirstSliceLabel | ui.go:168-188 | Slice 0 reads `0:00 - 0:15 ` |
| Ui.LastSliceLabel | ui.go:171-173 | Slice 95 reads `23:45 - 24:00 `: the end hour goes past 23 |
| Ui.LabelsMeet | ui.go:168-188 | A slice's label ends with the clock time the next slice's label starts with |
| Ui.NumberedLinesAt | ui.go:149 | Line i of a pane is numbered i+1 and shows the i-th description, for both panes |
| Ui.LatestDisplays | ui.go:146-148 | The pane walks the window backwards: description i is the display of window element W-1-i |
| Ui.TimeSliceLinesAt | ui.go:145-150 | Line i of the time-slice pane is `t(i+1)` with the label of window element W-1-i |
| Ui.SetTimeSliceTextFor | ui.go:143-152 | The loop's text is the time-slice lines joined in order, line i numbered `t(i+1)` and showing window element W-1-i |
| Ui.LabelledSlice | ui.go:146-149 | Line `tn` shows the n-th slice back from the end of the window, for every n in [1, W] |
| Ui.FirstLineIsNow | ui.go:146-149 | When the window is not clamped, `t1` shows the now slice |
| Ui.LinesLatestFirst | ui.go:146-149 | On an indexed day, lines further down show earlier slices |
| Ui.NumberedLineIsLine | ui.go:149 | A numbered line whose description holds no newline is exactly one line |
| Ui.TimeSliceLineIsLine | ui.go:149 | Every time-slice line is exactly one line |
| Ui.TimeSliceTextLineCount | ui.go:146-150 | The time-slice text has exactly W lines |
| Ui.ActivityLinesSnoc | ui.go:157-161 | A further active activity adds one line, numbered one past the previous count |
| Ui.ActivityLinesAt | ui.go:159 | Line i of the activity pane is `a(i+1)` with the name of the i-th active activity |
| Ui.SetActivitiesFor | ui.go:154-164 | The loop's text is the active activities' lines, numbered `a1` onwards in configuration order |
| Ui.ShownActivityIsValid | ui.go:154-164 | `validActivity` accepts `n` exactly when the pane shows a line `an`, and that line names the n-th active activity |
| Ui.ActivityTextLineCount | ui.go:157-162 | The activity text has one line per active activity, when no name holds a newline |

## Left out

- Cloud storage: connecting, reading the stored document and writing it (data.go:29-63, `persist` at data.go:132-149). The model keeps only the sparse map and the rebuild loop of `loadData`. The stored document is a value of type `Data.Document`.
- Data.LoadDay: the Go code asserts that each stored record is a map and its `activity_id` a string, and panics otherwise. The model types the document, so a malformed document cannot be expressed.
- config.go: reading, creating and decoding the configuration file. Only the shapes of `Config` and `Activity` are modelled.
- bt.go: process start-up, shutdown and the global application state. Configuration and day are passed as parameters.
- Widget code in ui.go: the construction of the tview widgets, colours, the header's date, `inputComplete` and `resetInput`. `setTimeSliceTextFor` and `setActivitiesFor` return the text they would hand to the widget.
- The older parser in ui.go (ui.go:55, 88-90, 199-228). It duplicates input.go with a regex in which the second `t` of a range is mandatory.
- The commands `parseInput` triggers: `timeForward`, `timeBackward`, `dayForward`, `dayBackward`, `dayTodayTimeNow`, `dayYesterday`, `assignTime`, `unassignTime` and `ui.app.Stop`. Their code is not part of this model. `Input.ParseInput` returns the command as a value, with the expanded slice list it would pass.
- Paging the window forward and backward lives in those commands and is not part of this model.
- `time.Now()`: the clock is the `hour` and `minute` parameters.
- Text.Atoi: does not model the overflow of `strconv.Atoi` on numerals beyond 64 bits. Numerals are unbounded naturals.
- Text.Lower: maps to lower case only the letters whose lower case is ASCII: `A`-`Z`, U+0130 (to `i`) and U+212A (to `k`). Other letters are kept as they are, where `strings.ToLower` folds them to other non-ASCII letters. The keywords and the grammar are ASCII, so neither result matches them, and the command is the same.
- The `sliceIndex` capture (group 2) of the regular expressions is never read by the code and is not modelled.
- Input.AssignedRangeDisplayed: the bound [1, W] is stated for ranges only. Slice-set numbers are unchecked in the code.
