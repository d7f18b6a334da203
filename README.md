# Gaze automation core, modelled in Dafny

Gaze is a desktop companion for Android devices that drives `adb`. This project models three
sequential, text-driven parts of it and proves properties of the model.

- **Touch recording and playback** (`automation.go`):
  - the touchscreen locator over the `getevent -p` listing;
  - the screen-size and axis-range parsers;
  - the `getevent -lt` line pattern, and the state machine that turns a session's raw lines into a
    script of taps and swipes in screen pixels;
  - the per-device recording and playback registries, and the command sequence a playback issues;
  - the sanitisation of script file names.
- **The UI selector engine** (`selector.go`):
  - bounds parsing and rectangle geometry;
  - the pre-order search of a UI hierarchy;
  - the per-type match predicates and the choice of the match at an index;
  - the `AND`/`OR` query language with its five operators;
  - the ranking of selector suggestions (an in-place exchange sort over an array) and the
    best-selector fallback chain.
- **adb output parsing** (`app.go`): the `adb devices -l` parser of `GetDevices`, and the
  `pm list packages` parser of `ListPackages` with its enabled/disabled classification.

Every command's output reaches the model as a parameter, a `Result<string, string>` when the command
can fail. Events sent to the front end are kept as an appended log of `Notification` records.
Modules:

- `Wrappers`: Option, Result and Outcome.
- `Text`: the Go `strings` and `strconv` behaviour the core relies on.
- `Seqs`: general lemmas about sequences that the other modules share.
- `Getevent`: the line pattern, and exact decimal timestamps.
- `TouchParse`: the event parser.
- `TouchDevice`: the locator, the axis ranges and the resolution.
- `TouchRecorder` and `TouchPlayer`: the registry classes.
- `ScriptNames`: script file names.
- `UiTree`: the UI hierarchy.
- `Selector`: bounds.
- `SelectorQuery`: advanced queries.
- `SelectorFind`: finding elements.
- `SelectorSuggest`: suggestions.
- `AdbOutput`: the adb output parsers.

Code that changes things step by step is modelled as imperative Dafny, specified in three ways:
- The loops of `parseRawEvents`, `GetTouchInputDevice`, `splitAdvancedQuery`, `GetDevices` and
  `ListPackages` are methods proved equal to specification functions. The properties are proved
  about those functions.
- The suggestion sort works in place on an array. `SortByPriority`, `Rank` and
  `GenerateSelectorSuggestions` are proved to return a permutation of their input sorted by priority.
- The registries are classes. Their methods state each new field in terms of the old ones, and the
  recording registry's methods preserve its consistency predicate `Valid`.

## Model

| member | source | states |
|---|---|---|
| Getevent.RunEnd | automation.go:396 | The end of a run of one character class lies between its start and the end of the line |
| Getevent.RunEndIs | automation.go:396 | A run ends exactly at the first position past `i` whose character is outside the class |
| Getevent.CaptureValue | automation.go:396 | The value group matches exactly when a hex run, `DOWN` or `UP` starts at the position, and what it captures is never empty |
| Getevent.CaptureValueRules | automation.go:396 | Hex-first and keyword-first alternation capture at the same positions, and hex-first turns `DOWN` into `D` |
| Getevent.TailFromRules | automation.go:396 | The lazy `.*?` search for `EV_` finds a tail under both alternation orders alike, and only the value differs |
| Getevent.MatchFromRules | automation.go:396 | The unanchored search under the source's alternation equals the corrected search with the value rewritten |
| Getevent.AsWrittenReadsDownAsD | automation.go:396 | The pattern as written matches the same lines as the corrected one, but captures `D` for `DOWN` |
| Getevent.CategoryRuns | automation.go:396 | In a formatted line, `EV_\w+` ends exactly at the end of the category and the following white space at the code |
| Getevent.CodeRuns | automation.go:396 | In a formatted line, the code group and the white space after it end at the laid-out positions |
| Getevent.ValueAtFormatted | automation.go:396 | A value at the end of a line is captured whole: hex digits, `DOWN` or `UP` |
| Getevent.TailAtIs | automation.go:396 | The category, code and value of three laid-out runs are what the tail groups capture |
| Getevent.TailAtFormatted | automation.go:396 | The tail of a formatted line yields its category, code and value |
| Getevent.FormatLinePieces | automation.go:389-395 | A line written as `[ ts] EV_x code value` has each field at its expected offset |
| Getevent.SecondsRun | automation.go:396 | The `[\d.]+` group stops at the closing bracket |
| Getevent.HeaderRuns | automation.go:396 | The `[\s*` prefix and the seconds group of a formatted line end where the layout puts them |
| Getevent.TailFromAfter | automation.go:396 | The lazy search skips one leading space before trying `EV_` |
| Getevent.MatchAtIs | automation.go:396 | A header parse and a tail parse combine into the four captured groups |
| Getevent.MatchFormattedLine | automation.go:389-396 | Round trip: matching a line formatted from well-formed fields gives those fields back |
| Getevent.MatchPlaced | automation.go:396 | Any line with the fields laid out at their offsets matches with those fields |
| Getevent.ParseSeconds | automation.go:427 | A parsed timestamp is never negative |
| Getevent.ParseSecondsFraction | automation.go:427 | `whole.frac` parses to the exact decimal of its digits, scaled by the length of the fraction |
| Getevent.DecodeValue | automation.go:439-452 | `DOWN` decodes to 1 and `UP` to 0 |
| Getevent.HexAllF | automation.go:448-452 | A run of `f` digits is hex and has the value 16^n - 1 |
| Getevent.HexAllZero | automation.go:448-452 | A run of `0` digits is hex and has the value 0 |
| Getevent.DecodeHexValue | automation.go:448-452 | A hex value below 2^32 decodes to its int32 reinterpretation, and a larger one is rejected; `ffffffff` gives -1 |
| Getevent.DecodeD | automation.go:448-452 | The single digit `D` decodes to 13 |
| Getevent.DownLineReadAsD | automation.go:396-443 | On a formatted line ending in `DOWN`, the intended pattern reads `DOWN` (decoded 1) and the source's pattern reads `D` (decoded 13) |
| Getevent.DecodeLine | automation.go:422-425 | A line decodes exactly when the pattern matches it, so lines that do not match are skipped |
| Getevent.MatchLine | automation.go:396 | The corrected pattern, with `DOWN` and `UP` tried before the hex digits; its properties are stated by `MatchFormattedLine` and `MatchPlaced` |
| Getevent.MatchLineAsWritten | automation.go:396 | The pattern as written, with the hex digits tried first, as the leftmost-first search of `FindStringSubmatch` |
| Getevent.DecodeLineAsWritten | automation.go:396-443 | Decoding with the pattern as written matches the same lines as the corrected decoding and gives the same event, except that a `DOWN` value arrives as `D` |
| Text.TruncDiv | automation.go:436 | Division truncating toward zero, as a Go integer conversion does: the Euclidean quotient for a non-negative numerator, and the negated quotient of the magnitude otherwise |
| Getevent.MillisBetween | automation.go:436 | The whole milliseconds between two timestamps, truncated toward zero: never negative when the second is not earlier, never positive when it is not later |
| Text.ParseUint32Hex | automation.go:448-451 | `ParseUint(v, 16, 32)` succeeds exactly on a non-empty hex string whose value is below 2^32 |
| Text.ToInt32 | automation.go:452 | The int32 conversion falls in [-2^31, 2^31) and agrees with its argument modulo 2^32 |
| Text.TrimSpace | app.go:120 | The trimmed string is the slice left after dropping the leading and trailing white space, and it neither starts nor ends with white space |
| Text.Fields | app.go:124 | Every field is non-empty and holds no white space |
| Text.FieldsOfJoin | app.go:124 | Joining white-space-free words with spaces and splitting into fields gives the words back |
| Text.JoinSplit | automation.go:40-43 | Splitting on a separator and joining with it again gives the original string |
| Text.SplitPiecesFree | automation.go:40-43 | No part of a split contains the separator |
| Text.AtoiIntToString | selector.go:88-89 | `strconv.Atoi` reads back every decimal integer written out |
| Text.IndexOf | selector.go:251 | The first occurrence of a substring: none before it, and -1 exactly when there is none |
| Text.ToLower | selector.go:245-246 | Lowering keeps the length and lowers each character in place |
| TouchParse.EffectiveRange | automation.go:401-411 | An axis whose max equals its min falls back to [0, screen dimension]; any other range is kept |
| TouchParse.Scale | automation.go:488-511 | An axis with max above min interpolates the raw value from [min, max] onto [0, screen dimension], rounding as `int(v + 0.5)`; any other axis passes the raw value through |
| TouchParse.ScaleMin | automation.go:495-511 | The minimum raw value maps to pixel 0 |
| TouchParse.ScaleMax | automation.go:495-511 | The maximum raw value maps to the full screen dimension |
| TouchParse.ScaleNearest | automation.go:488-511 | For raw values at or above the minimum, scaling rounds to the nearest pixel: within half a pixel of the exact ratio |
| TouchParse.ScaleBelowRange | automation.go:488-491 | Below the range, `int(v + 0.5)` truncates toward zero (-0.7 + 0.5 gives 0), which floor would not |
| TouchParse.StrokeClassification | automation.go:515-539 | A stroke is a tap exactly when the squared scaled distance is below 2500 and the duration below 300 ms. A tap carries only its start point; a swipe carries both ends and the duration; the timestamp is the closing line's |
| TouchParse.CloseStroke | automation.go:464-542 | A finger-up: an unset start takes the current position, the stroke is dropped while an endpoint is -1, and otherwise it is scaled and classified with its duration in milliseconds |
| TouchParse.ClassificationBoundary | automation.go:526-539 | At the thresholds: distance² 2450 with 299 ms is a tap; 2500 or 2501 is a swipe, and so are 300 and 301 ms |
| TouchParse.TouchDown | automation.go:457-463 | A finger-down starts tracking at that time with the stroke start unset, and leaves the current position alone |
| TouchParse.CloseStrokeSpec | automation.go:464-542 | A finger-up stops tracking and falls back to the current position for an unset start. It drops the stroke when any endpoint is still -1; otherwise it emits the classified stroke with the duration since touch-down |
| TouchParse.CodeOf | automation.go:454-630 | Each of the four interpreted codes is recognised exactly by its name |
| TouchParse.Step | automation.go:427-630 | One decoded line: the first one fixes the time origin; only `EV_ABS` lines whose value decodes act, by code; a tracking id or `BTN_TOUCH` opens or closes a stroke, a position code moves the current point |
| TouchParse.LineStep | automation.go:421-630 | A line the corrected pattern does not match changes nothing; any other line is one step of the machine |
| TouchParse.LineStepAsWritten | automation.go:396-630 | The same step, with the line read by the pattern as written |
| TouchParse.DownValueAsWritten | automation.go:396-630 | On an `EV_ABS` line whose value is `DOWN`, the corrected reading gives X = 1 on `ABS_MT_POSITION_X` and starts a stroke on `BTN_TOUCH`; the reading as written gives X = 13 and starts none |
| TouchParse.StepOnValue | automation.go:544-630 | An `EV_ABS` event whose value decodes to a non-zero v: `ABS_MT_POSITION_X` sets X to v, and `BTN_TOUCH` starts a stroke exactly when v is 1 |
| TouchParse.Run | automation.go:421-633 | The state machine run over the lines from the initial state, the events collected in order |
| TouchParse.RunSnoc | automation.go:421-633 | One more raw line extends the run by one step of the state machine |
| TouchParse.StepAllSnoc | automation.go:421-633 | One more decoded event extends the run by one step |
| TouchParse.RunDecoded | automation.go:421-425 | Running over raw lines equals running over their decoded events |
| TouchParse.MillisExamples | automation.go:436 | 1.000 s to 1.050 s is 50 ms, and to 1.500 s is 500 ms |
| TouchParse.ScaleExamples | automation.go:495-511 | On a 0..1000 axis and a 500-pixel screen, 100 goes to 50, and the ends go to 0 and 500 |
| TouchParse.PutDown | automation.go:457-463 | Tracking id then X then Y: tracking starts, and the stroke start and current position are the given raw point |
| TouchParse.StillStroke | automation.go:464-542 | A finger-down with one position then a finger-up emits one stroke from that point to itself |
| TouchParse.TapExample | automation.go:518-539 | A 50 ms touch at raw (100, 100) on the half scale is a tap at (50, 50), stamped 50 |
| TouchParse.MovedStroke | automation.go:620-630 | Position updates while tracking move the current point, and the start point stays |
| TouchParse.MoveTo | automation.go:620-630 | While tracking with a known start point, X and Y updates change only the current position |
| TouchParse.SwipeExample | automation.go:518-539 | A 500 ms move from raw (0, 0) to (1000, 1000) is a swipe from (0, 0) to (500, 500) lasting 500 ms |
| TouchParse.ScreenSizeOfFormatted | automation.go:383-387 | A resolution written `WxH` reads back as (W, H) |
| TouchParse.ScreenSize | automation.go:383-387 | The `WxH` screen size: 1080x1920 unless the resolution splits on `x` into exactly two parts, and a part that is not a number counts as 0 |
| TouchParse.ScreenSizeWithoutX | automation.go:383-387 | A resolution without an `x`, the empty one a failed `wm size` leaves included, gives the 1080x1920 default |
| TouchParse.ApplyEvent | automation.go:427-630 | The loop body computes one step of the state machine |
| TouchParse.ParseRawEvents | automation.go:368-636 | The parser loop returns the script the specification function assigns to the session |
| TouchParse.TriggersAgree | automation.go:439-618 | `BTN_TOUCH` closes a stroke exactly as tracking id `ffffffff` (-1) does, whether its value is `UP` or `00000000`; and it opens one exactly as a valid tracking id does, whether its value is `DOWN` or `00000001` |
| TouchParse.StepEmitsOnClose | automation.go:464-542 | An event is emitted only by a step that ends a stroke being tracked |
| TouchParse.AtMostOneEventPerStroke | automation.go:541 | The events number at most the strokes closed, and those at most the lines |
| TouchParse.EventsExtend | automation.go:541 | More lines only append events: earlier events stay in input order |
| TouchParse.EmptySession | automation.go:369-380 | No raw events gives an empty, unnamed script with the device id and resolution copied |
| TouchParse.ScriptShape | automation.go:369-374 | Every script carries the session's device id and resolution, and no more events than raw lines |
| TouchParse.ParseScript | automation.go:368-636 | The script of a session: its device id, resolution and start time, with no events when there are no raw lines and the events of the run otherwise |
| TouchDevice.FirstNameLine | automation.go:86-102 | The name line found is a line of the block and contains `name:` |
| TouchDevice.ContainsAnyKeyword | automation.go:94-99 | The keyword loop answers whether any touchscreen keyword occurs in the lowered name |
| TouchDevice.NameMatches | automation.go:86-102 | The name loop answers the name-match predicate of the block |
| TouchDevice.ExamineBlock | automation.go:57-110 | One block's loop body yields the candidate the specification assigns to it |
| TouchDevice.CollectCandidates | automation.go:57-110 | The candidate loop collects the candidates of all blocks, in order |
| TouchDevice.PickBest | automation.go:113-121 | The best-score loop computes the specification's best score and path |
| TouchDevice.GetTouchInputDevice | automation.go:32-129 | The locator returns the specification's answer, error cases included |
| TouchDevice.TrimmedPathPrefix | automation.go:69-73 | Trimming keeps a leading `/dev/input/` |
| TouchDevice.BlockCandidateSpec | automation.go:57-110 | A block is a candidate exactly when it is non-blank, its first line names `/dev/input/` and it mentions `ABS_MT_POSITION_X` or `0035`. Its path starts `/dev/input/`, and it scores 11 on a name match and 1 otherwise |
| TouchDevice.BestIsFirstMaximum | automation.go:113-121 | The best candidate is the first with the maximal score, and no candidates give (0, "") |
| TouchDevice.CandidatesShape | automation.go:57-110 | Every candidate's path starts `/dev/input/`, and its score is 1 or 11 |
| TouchDevice.LocateSpec | automation.go:113-128 | The locator fails exactly when there is no candidate; otherwise it returns the path of the first candidate with the maximal score |
| TouchDevice.LocateTouchDevice | automation.go:32-129 | A failed `getevent -p` is reported as `failed to get input devices: ...`; no candidate gives `no touch input device found`; otherwise the best candidate's path |
| TouchDevice.FindSizeShape | automation.go:139-145 | A size found has the form `digits x digits` |
| TouchDevice.FindSizeSkips | automation.go:139 | Characters that are not digits cannot start a match |
| TouchDevice.FindSize | automation.go:139-143 | The leftmost `(\d+)x(\d+)` match at or after a position, rebuilt as `WxH` |
| TouchDevice.GetDeviceResolution | automation.go:132-146 | A failed `wm size` passes its error on; otherwise the first `WxH`, or `1080x1920` when there is none |
| TouchDevice.ResolutionOfReport | automation.go:132-146 | `wm size` output with its size after a digit-free prefix yields exactly that size |
| TouchDevice.SizeAtReport | automation.go:139 | A `WxH` run at a position matches there |
| TouchDevice.ResolutionShape | automation.go:132-146 | The resolution is always a `WxH` size, or the default 1080x1920 |
| TouchDevice.GapEnd | automation.go:214 | A `\s+` run ends at the first character that is not white space |
| TouchDevice.NumberEnd | automation.go:214 | A number group is non-empty |
| TouchDevice.RangesStep | automation.go:216-229 | Each property line updates the ranges by one step |
| TouchDevice.DetectAxisRanges | automation.go:206-230 | The axis-range loop returns the ranges of the property listing |
| TouchDevice.DetectRanges | automation.go:206-230 | A failed property listing leaves all four bounds 0; otherwise the ranges of its lines |
| TouchDevice.LastXLineWins | automation.go:217-222 | The X range is the one on the last line that gives one |
| TouchDevice.LastYLineWins | automation.go:223-228 | The Y range is the one on the last line that gives one |
| TouchDevice.NoXLineZero | automation.go:206-222 | Without an X line the X range stays 0..0 |
| TouchRecorder.EventLines | automation.go:268-272 | The kept lines are no more than the lines read, each one read and each one mentioning `EV_` |
| TouchRecorder.EventLinesAppend | automation.go:256-279 | Filtering distributes over concatenation, so kept lines stay in arrival order |
| TouchRecorder.EventLinesSingle | automation.go:268-272 | A single line is kept exactly when it mentions `EV_` |
| TouchRecorder.AppendedTwice | automation.go:268-272 | Appending twice to a session equals appending the concatenation |
| TouchRecorder.AppendedNothing | automation.go:256-279 | Appending nothing leaves the sessions unchanged |
| TouchRecorder.EventLinesStep | automation.go:256-279 | One more line read extends the kept lines by that line when it mentions `EV_` |
| TouchRecorder.OpenSession | automation.go:159-230 | A start's commands create the specification's session or report its error. They locate the touchscreen, read the screen size, launch the process and read the ranges |
| TouchRecorder.NewSession | automation.go:159-246 | A start succeeds exactly when the touchscreen is found and getevent launches; a failed `wm size` or `getevent -p` does not abort it. The new session has the device, the start time, no events and the located input device; a failed locate reports `failed to find touch input device: ` and its error |
| TouchRecorder.Recorder.constructor | automation.go:21-29 | The registries start empty and consistent |
| TouchRecorder.Recorder.IsRecording | automation.go:349-355 | A device is recording exactly when a recording process is registered for it |
| TouchRecorder.Recorder.EventCount | automation.go:358-365 | The number of lines its session has captured, and 0 for a device with no session |
| TouchRecorder.Recorder.StartRecording | automation.go:149-294 | A start fails on a device already recording. Otherwise a failed launch changes nothing; a success registers the device in all three maps with an empty session, logs the start and keeps the maps consistent |
| TouchRecorder.Recorder.ReadLine | automation.go:268-272 | One line read is appended to the session only when it mentions `EV_`, and nothing else changes |
| TouchRecorder.Recorder.ReadOutput | automation.go:256-279 | The session's raw events grow by exactly the `EV_` lines read, in order, and nothing else changes |
| TouchRecorder.Recorder.StopRecording | automation.go:297-347 | A stop fails without an active recording. Otherwise it cancels; without data it fails, and if not it returns the parsed session, removes the device from all three maps and logs the count |
| TouchRecorder.RecordOnce | automation.go:149-347 | Start, read, stop on a fresh registry returns the parse of exactly the `EV_` lines, or the start's error |
| TouchPlayer.EventCommand | automation.go:683-695 | Taps and swipes become a command, and `wait` and unknown kinds none |
| TouchPlayer.TapCommand | automation.go:686 | `shell input tap X Y` with the numbers in decimal |
| TouchPlayer.SwipeCommand | automation.go:688-689 | `shell input swipe X Y X2 Y2 D` with the numbers in decimal |
| TouchPlayer.PlanCalls | automation.go:664-705 | Every event's command, if it has one, on the device, in event order |
| TouchPlayer.PlanProgress | automation.go:697-704 | At most one progress report per event, each on the device, out of the given total, at a 1-based position within the events |
| TouchPlayer.TapCommandWords | automation.go:686 | `shell input tap X Y` splits into its five words, and the numbers read back as X and Y |
| TouchPlayer.SwipeCommandWords | automation.go:688-689 | `shell input swipe X Y X2 Y2 D` splits into its eight words, and the numbers read back |
| TouchPlayer.PlanSnoc | automation.go:664-705 | Each event adds its command and a progress report of position i+1 when it has a command, and nothing otherwise |
| TouchPlayer.PlanAgreement | automation.go:697-704 | Commands and progress reports pair one to one; each report names the event of its command; positions increase |
| TouchPlayer.PlanComplete | automation.go:683-704 | Every tap and swipe is played and reported |
| TouchPlayer.PlanCallsPrefix | automation.go:664-705 | A playback stopped early issues a prefix of the full command sequence |
| TouchPlayer.PlayEvents | automation.go:664-705 | The playback loop stopped at k issues the plan of the first k events, and reports its progress |
| TouchPlayer.Player.constructor | automation.go:21-29 | The playback registry starts empty |
| TouchPlayer.Player.IsPlaying | automation.go:728-733 | A device is playing exactly when a playback cancel is registered for it |
| TouchPlayer.Player.PlayTouchScript | automation.go:639-714 | A start fails while a playback is active; otherwise it registers the device and logs the start |
| TouchPlayer.Player.Playback | automation.go:651-705 | The loop's commands and progress are appended, completion is logged and the device is released |
| TouchPlayer.Player.StopTouchPlayback | automation.go:717-725 | An active playback is cancelled and forgotten; otherwise nothing changes |
| TouchPlayer.PlayOnce | automation.go:639-714 | A whole playback logs start, one report per command played, then completion, and frees the device |
| ScriptNames.Sanitize | automation.go:751 | Sanitising gives a name of `[A-Za-z0-9_-]` characters only |
| ScriptNames.SanitizeChars | automation.go:751 | Sanitising keeps the length, keeps each allowed character and replaces every other character with `_` |
| ScriptNames.SanitizeSafe | automation.go:751 | A name of allowed characters only is left unchanged |
| ScriptNames.SanitizeIdempotent | automation.go:751 | Sanitising twice is sanitising once |
| ScriptNames.SanitizeEmpty | automation.go:751-754 | The sanitised name is empty exactly when the name is |
| ScriptNames.SaveFileName | automation.go:750-756 | The sanitised name, or `script_<now>` when that is empty, with `.json` appended |
| ScriptNames.DeleteFileName | automation.go:809-810 | The sanitised name with `.json` appended, even when it is empty |
| ScriptNames.SaveStemSafe | automation.go:751-756 | The saved file's stem is never empty and is already sanitised, `script_<unix>` included |
| ScriptNames.SaveThenDelete | automation.go:756 | A non-empty name is deleted from the same file it was saved to. An empty one is deleted from `.json`, which differs from the saved `script_<unix>.json` |
| ScriptNames.DeleteFileNameSanitized | automation.go:809-810 | Deleting by a name and by its sanitised form targets the same file |
| UiTree.Flatten | selector.go:311-326 | Pre-order starts with the node itself |
| UiTree.Collect | selector.go:311-326 | A node is collected before its children's collections, which follow in child order, when the predicate holds of it |
| UiTree.Filter | selector.go:311-326 | Filtering keeps exactly the elements satisfying the predicate, and no more elements than given |
| UiTree.FilterAppend | selector.go:311-326 | Filtering distributes over concatenation |
| UiTree.CollectIsFilter | selector.go:311-326 | `collectMatchingNodes` is the pre-order traversal filtered by the predicate |
| UiTree.CollectAllIsFilter | selector.go:316-323 | Collecting over the children in order is filtering their concatenated pre-orders |
| UiTree.CollectMembership | selector.go:311-326 | A node is collected exactly when it is in the tree and satisfies the predicate |
| UiTree.FlattenChild | selector.go:316-323 | A node precedes its descendants, and the i-th child's subtree sits between those of its siblings |
| UiTree.FlattenAllSplit | selector.go:316-323 | The pre-order of a list of subtrees splits at any subtree |
| Selector.RunBefore | selector.go:24 | A digit run of the pattern ends at its delimiter, inside the string |
| Selector.BoundsAtOf | selector.go:24 | Four delimited digit runs locate the delimiters of `[a,b][c,d]` |
| Selector.BoundsAtDelimiters | selector.go:24-34 | Located delimiters give the rectangle of the four numbers between them |
| Selector.FirstMatchSkips | selector.go:24 | The leftmost search skips positions where nothing matches |
| Selector.FindBoundsSkips | selector.go:24 | Positions without `[` cannot start a match |
| Selector.NoBoundsAt | selector.go:24 | No match starts at a character other than `[` |
| Selector.ParseBoundsWithoutBracket | selector.go:25-28 | A string without `[` is rejected with `invalid bounds format` |
| Selector.FormattedMatch | selector.go:22-35 | The first `[a,b][c,d]` after a bracket-free prefix is found, whatever follows |
| Selector.PrefixSkipped | selector.go:24 | A bracket-free prefix is skipped |
| Selector.FormattedAt | selector.go:24 | `[a,b][c,d]` at a position matches there with its four numbers |
| Selector.RunsAt | selector.go:24 | Laid-out digit runs and delimiters match as the rectangle of their numbers |
| Selector.DelimitersAt | selector.go:24 | Laid-out digit runs locate the delimiters where they are written |
| Selector.ParseFormatBounds | selector.go:22-35 | Round trip: parsing a rectangle of non-negative numbers written `[x1,y1][x2,y2]` gives the rectangle back |
| Selector.CenterBetween | selector.go:38-40 | The centre lies between the corners on each axis, and inside an ordered rectangle |
| Selector.CenterTruncates | selector.go:38-40 | Truncating division: the centre of (0,0)-(5,5) is (2,2), and that of (5,5)-(0,0) is (3,3) |
| Selector.ContainsEdges | selector.go:43-45 | Containment is inclusive on all four edges and corners, and false outside; containing any point means an ordered rectangle |
| Selector.AreaSign | selector.go:48-50 | An ordered rectangle has a non-negative area, and the area is 0 exactly when a side is degenerate |
| Selector.ParseBounds | selector.go:22-35 | The first `[a,b][c,d]` match gives the rectangle; no match gives `invalid bounds format: ...` |
| Selector.Center | selector.go:38-40 | The first corner plus half the extent on each axis, the halves truncated toward zero |
| Selector.ContainsPoint | selector.go:43-45 | A point is inside when it lies between the corners on both axes, edges included |
| Selector.Area | selector.go:48-50 | The product of the two signed extents |
| SelectorQuery.Pieces | selector.go:243-260 | Splitting always yields at least one piece |
| SelectorQuery.PiecesShorter | selector.go:243-260 | Pieces are no longer than what remains, and strictly shorter when there are several |
| SelectorQuery.PiecesLast | selector.go:251-254 | Without a further separator the rest is the last piece |
| SelectorQuery.PiecesStep | selector.go:251-257 | A separator found cuts a piece of the original-case query and resumes after it |
| SelectorQuery.Trimmed | selector.go:253-256 | Trimming the pieces keeps their number |
| SelectorQuery.TrimmedAt | selector.go:253-256 | Each trimmed piece is its piece trimmed |
| SelectorQuery.SplitQuery | selector.go:243-260 | The split has at least one part; with several parts, each is shorter than the query |
| SelectorQuery.SplitQueryTrimmed | selector.go:243-260 | Every part is trimmed |
| SelectorQuery.SplitStep | selector.go:256-257 | The loop's appended part and the remaining pieces together make up the specification |
| SelectorQuery.SplitAdvancedQuery | selector.go:243-260 | The split loop computes the case-insensitive, trimmed split |
| SelectorQuery.PiecesAreLowerSplit | selector.go:243-260 | The pieces are, after lowering, the plain split of the lowered query on the lowered separator |
| SelectorQuery.SplitQueryCount | selector.go:243-260 | The part count is that of the lowered split, whose parts rejoin to the lowered query and hold no separator |
| SelectorQuery.FirstOperator | selector.go:267-278 | The operator chosen is the first in list order occurring anywhere; none earlier in the list occurs; none is chosen exactly when no operator occurs |
| SelectorQuery.OrderIndex | selector.go:267 | Each operator has exactly one position in the list `~ ^ $ = :` |
| SelectorQuery.OnlyOperatorAt | selector.go:267-278 | A condition with a single operator character splits there |
| SelectorQuery.SidesFree | selector.go:267-278 | Joining operator-free sides with one operator leaves that operator the only one |
| SelectorQuery.ListOrderNotLeftmost | selector.go:267-278 | `id=a~b` splits at `~`, not at the leftmost `=` |
| SelectorQuery.EvaluateWithOperator | selector.go:263-305 | `attr op value` compares the lowered attribute with the lowered, trimmed value by that operator |
| SelectorQuery.ParseWithOperator | selector.go:267-278 | `attr op value` parses into the trimmed attribute, the operator and the trimmed value |
| SelectorQuery.EvaluateWithoutOperator | selector.go:281-286 | A condition with no operator is a substring search over text, description and resource id |
| SelectorQuery.EvaluateLeadingOperator | selector.go:281-286 | An empty attribute name falls back to the substring search of the whole condition |
| SelectorQuery.CompareImplications | selector.go:289-305 | Equality implies prefix, suffix and contains; prefix and suffix imply contains; `:` and `~` are the same test |
| SelectorQuery.ParseCondition | selector.go:267-278 | The first operator in the order `~ ^ $ = :` that occurs anywhere splits the condition into its trimmed attribute and value |
| SelectorQuery.TextSearch | selector.go:281-286 | The lowered condition occurs in the lowered text, content description or resource id |
| SelectorQuery.Compare | selector.go:292-305 | `=` is equality, `:` and `~` containment, `^` a prefix and `$` a suffix |
| SelectorQuery.EvaluateCondition | selector.go:263-305 | The trimmed condition: a text search without an operator or with an empty attribute, and otherwise the operator applied to the lowered attribute value and the lowered value |
| SelectorQuery.MatchAdvanced | selector.go:210-240 | A blank query is false; several OR parts hold when any part does; several AND parts when all do; otherwise the trimmed query is one condition |
| SelectorQuery.BlankQueryMatchesNothing | selector.go:211-214 | A blank query matches no node |
| SelectorQuery.SingleCondition | selector.go:239 | A query without ` or ` or ` and ` is evaluated as one trimmed condition |
| SelectorQuery.MatchWord | selector.go:210-240 | A bare word is a substring search |
| SelectorQuery.WordCondition | selector.go:210-240 | A word without white space is read as one condition |
| SelectorQuery.PiecesOfJoin | selector.go:248-258 | Pieces free of the separator, in any case, joined with it, are cut back into exactly those pieces |
| SelectorQuery.SplitQueryOfJoin | selector.go:243-260 | Trimmed separator-free parts joined with the separator split back into those parts |
| SelectorQuery.MatchOrSplit | selector.go:216-224 | A query with several OR parts holds exactly when some part does |
| SelectorQuery.MatchAndSplit | selector.go:227-235 | A query with one OR part and several AND parts holds exactly when every part does |
| SelectorQuery.MatchOrJoin | selector.go:216-224 | Single-word conditions joined with ` OR ` hold exactly when some condition holds |
| SelectorQuery.MatchAndJoin | selector.go:227-235 | Single-word conditions joined with ` AND ` hold exactly when every condition holds |
| SelectorQuery.MatchOrOfAnds | selector.go:210-240 | Groups of single-word conditions, each joined with ` AND ` and the groups joined with ` OR `, hold exactly when every condition of some group holds |
| SelectorQuery.AndBindsTighter | selector.go:210-240 | `a AND b OR c` holds exactly when (a and b) or c holds |
| SelectorFind.PickAt | selector.go:150-153 | The match at the index when in range, and none otherwise |
| SelectorFind.NegativeIndexPanics | selector.go:150-153 | As written, a negative index passes the guard and indexes the slice (a panic); the corrected choice gives none |
| SelectorFind.PickAgrees | selector.go:150-153 | For non-negative indices the code as written and the corrected choice agree |
| SelectorFind.PickAsWritten | selector.go:150-153 | The guard as written: an index below the length indexes the list, a panic when it is negative; none otherwise |
| SelectorFind.Matches | selector.go:106-140 | The predicate of each collecting type: text or description equal for `text`, the resource id or its `:id/` suffix for `id`, the description for `desc` and `description`, the class for `class`, substring of text or description for `contains`, the query for `advanced` |
| SelectorFind.Matching | selector.go:106-140 | The nodes matching a collecting type, collected in pre-order |
| SelectorFind.FindElement | selector.go:57-100 | No root or selector gives none; a collecting type or xpath takes the match at the index; `bounds` makes a node of the value; `coordinates` asks the tree for the point; any other type gives none |
| SelectorFind.FindElementAsWritten | selector.go:57-206 | The lookup with the guards as written: a negative index panics on the collecting types and xpath |
| SelectorFind.FindElementAgrees | selector.go:57-206 | For a non-negative index, the lookup as written and the corrected one agree; for a negative index on a collecting type or xpath the source panics and the model gives none |
| SelectorFind.FindIsPickOfAll | selector.go:58-142 | Apart from `bounds` and `coordinates`, finding one element takes the match at the index from the list of all matches, under the corrected index guard |
| SelectorFind.FindAllIsPreorderFilter | selector.go:102-142 | The matches of a collecting type are exactly the matching nodes, in pre-order |
| SelectorFind.FindAll | selector.go:102-142 | No root or selector gives nothing; a collecting type gives all its matches, xpath all the oracle's results, and any other type nothing |
| SelectorFind.LocationSelectors | selector.go:80-83 | `bounds` yields a synthetic node carrying only its value; FindAll has no `bounds` or `coordinates` case |
| SelectorFind.IdMatchesQualified | selector.go:112-115 | An `id` selector matches `package:id/name` by its name |
| SelectorFind.CoordinatesSelector | selector.go:84-92 | `x,y` asks the tree for the element at that point |
| SelectorFind.CoordinatesValue | selector.go:84-92 | `x,y` splits into two parts that read back as x and y |
| SelectorFind.NumberTrimmed | selector.go:88-89 | A number written out is unchanged by trimming |
| SelectorFind.CoordinatesNeedTwoParts | selector.go:84-92 | A `coordinates` value not of two comma-separated parts finds nothing |
| SelectorSuggest.IsSelectorUnique | selector.go:459-462 | A selector is unique exactly when one node of the hierarchy matches it |
| SelectorSuggest.GetSelectorMatchCount | selector.go:465-470 | No selector counts 0; the count is 1 exactly when a selector is given and is unique |
| SelectorSuggest.UniqueIsCountOne | selector.go:459-470 | A given selector is unique iff its match count is 1, and a missing one counts 0 |
| SelectorSuggest.ShortClassOfQualified | selector.go:389-392 | The short class name of a dotted name is its last segment |
| SelectorSuggest.ShortClassIsLast | selector.go:389-392 | The short class name is the last part of the split |
| SelectorSuggest.CandidatesMembers | selector.go:337-420 | A suggestion is built exactly for each non-empty text, id, description, class, xpath and bounds |
| SelectorSuggest.CandidatesRanked | selector.go:337-420 | Every suggestion has its rule's priority. Text goes from 5 to 3 when generic or not unique; id from 5 to 3 and description from 4 to 3 when not unique; class and xpath get 2, bounds 1 |
| SelectorSuggest.CandidateTypes | selector.go:337-420 | There is a suggestion of each type exactly when the node has that attribute |
| SelectorSuggest.Candidates | selector.go:337-420 | The suggestions of text, resource id, content description, class, xpath and bounds, in that order, each when its value is not empty |
| SelectorSuggest.Swap | selector.go:426 | An exchange swaps two entries and is a permutation |
| SelectorSuggest.PlacedSorted | selector.go:423-429 | When all but the last entry are placed, the array is sorted |
| SelectorSuggest.PlacedNext | selector.go:423-429 | A scan that leaves the head no lower than the rest places one more entry |
| SelectorSuggest.ExchangeStep | selector.go:424-428 | Swapping in a higher entry keeps the placed prefix and advances the scan |
| SelectorSuggest.SelectHighest | selector.go:424-428 | The inner loop places the highest remaining entry at i, permuting the array |
| SelectorSuggest.SortByPriority | selector.go:423-429 | The in-place exchange sort leaves the array non-increasing by priority, with the same entries |
| SelectorSuggest.AppendCandidates | selector.go:337-420 | The building code appends the suggestions of the specification, in order |
| SelectorSuggest.Rank | selector.go:423-429 | Ranking gives a permutation sorted by priority |
| SelectorSuggest.GenerateSelectorSuggestions | selector.go:333-432 | The suggestions are a permutation of the built candidates, non-increasing by priority |
| SelectorSuggest.BestIsSuggested | selector.go:435-456 | The best selector is never `class`, has index 0, and is one of the suggestions |
| SelectorSuggest.BestIsTopRanked | selector.go:437-447 | A text, id or description best selector is a suggestion of the top priority |
| SelectorSuggest.NoBestSelector | selector.go:435-456 | No best selector means no xpath or bounds, and no suggestion above priority 3 |
| SelectorSuggest.GetBestSelector | selector.go:435-456 | Unique non-generic text, then unique resource id, then unique content description, then xpath, then bounds, each with index 0; otherwise none |
| AdbOutput.CollectedStep | app.go:119-138 | One more line adds what it parses to |
| AdbOutput.CollectedConcat | app.go:119-138 | Collecting distributes over concatenation |
| AdbOutput.CollectedAt | app.go:119-138 | A parsed line's record sits after those of the earlier lines |
| AdbOutput.ModelAbsent | app.go:131-135 | Without a `model:` field the model is empty |
| AdbOutput.ModelFromLast | app.go:131-135 | The model is the suffix of the last field starting `model:` |
| AdbOutput.ParseDevices | app.go:116-138 | The device loop returns the devices of the output's lines |
| AdbOutput.ParseLine | app.go:120-136 | The loop body parses one line as the specification does |
| AdbOutput.ReadModel | app.go:131-135 | The model loop gives the model of the fields |
| AdbOutput.ModelStep | app.go:131-135 | A later `model:` field overrides the earlier one |
| AdbOutput.GetDevices | app.go:108-140 | A failed command gives `failed to run adb: ...`; otherwise the devices of its output |
| AdbOutput.DeviceAtLine | app.go:119-138 | Devices come in input line order |
| AdbOutput.DeviceLineShape | app.go:120-129 | Blank lines, the header and lines of fewer than two fields give no device; ID and state are single fields |
| AdbOutput.DeviceOfLine | app.go:120-136 | Blank lines and the header give none, as do lines of fewer than two fields; otherwise the first field, the second field and the model |
| AdbOutput.DevicesOf | app.go:116-138 | The devices of the lines, in line order |
| AdbOutput.DeviceOfWords | app.go:120-136 | Words joined by spaces, unless they spell the header line, give the device of the first two words and their model |
| AdbOutput.DeviceOfFields | app.go:124-136 | Two or more fields give ID = field 0, state = field 1 and the model |
| AdbOutput.ParseFormatDevice | app.go:116-138 | Round trip: a device line written out as `id state model:m` parses back to the device, for every single-word id and state |
| AdbOutput.FormattedNotHeader | app.go:121 | A line of two words and a `model:` field never starts with the header text |
| AdbOutput.PackageNamesStep | app.go:309-313 | Each trimmed `package:` line adds its name, and nothing else does |
| AdbOutput.NameSetMembers | app.go:291-296 | The disabled set holds exactly the names listed |
| AdbOutput.CollectDisabled | app.go:287-298 | The disabled names are those of the `-d` listing, or none if that command failed |
| AdbOutput.Classified | app.go:314-322 | One package per name |
| AdbOutput.Fetch | app.go:303-326 | A failed fetch adds nothing and reports the error; a successful one appends the classified packages, in order |
| AdbOutput.ClassifiedSnoc | app.go:309-322 | One more name appends its package |
| AdbOutput.ListPackages | app.go:281-339 | The method computes the specification's packages or error |
| AdbOutput.ClassifiedAt | app.go:314-322 | The i-th package is the i-th name of that type, disabled exactly when listed as disabled and enabled otherwise |
| AdbOutput.PackagesErrors | app.go:282-336 | Listing fails exactly on an empty device id or a failed system or user fetch |
| AdbOutput.PackagesListed | app.go:281-339 | System packages come first, then user packages, each disabled exactly when `pm list packages -d` listed it |
| AdbOutput.SystemThenUser | app.go:328-338 | Concatenated system and user lists keep their order, types and states |
| AdbOutput.PackageAtLine | app.go:309-322 | Packages come in line order |
| AdbOutput.ParsePackageLine | app.go:309-313 | `package:name` gives the name, and lines that do not start `package:` once trimmed give none |
| AdbOutput.PackageName | app.go:309-313 | The trimmed line's remainder after `package:`, when it starts so |
| AdbOutput.PackagesOf | app.go:281-339 | An empty device id gives `no device specified`; a failed system or user listing its error; otherwise the system then the user packages, each disabled when listed so |

## Left out

- Floating point. Timestamps are exact decimals (mantissa and scale) rather than `float64`. Relative
  milliseconds and durations are exact differences truncated toward zero, as `int64(...)` truncates.
  Scaling is exact rational arithmetic with `int(v + 0.5)` truncating toward zero. Rounding error of
  `float64` is not modelled.
- Processes and pipes. `exec.Command`, `StdoutPipe`, `StderrPipe`, `cmd.Wait`, line scanners and
  stderr logging are left out. Command outputs and launch failures are parameters (`Replies`, and
  `Result<string, string>` outputs). The recording process's output is the sequence of lines given to
  `ReadOutput`.
- Concurrency and timing. Goroutines, mutexes, `context` cancellation, `time.Sleep`, the delays
  between events and the 100 ms grace period are left out. The registries are sequential. A playback
  cancelled by `StopTouchPlayback` is modelled as the loop stopping before a given position, `stopAt`.
- TouchPlayer.Player.Playback: the deferred removal of the registry entry and the completion event
  happen at the end of the loop, not when the goroutine exits. `PlayTouchScript` logs the start event
  before the loop runs.
- `wailsRuntime.EventsEmit`: the notifications are an appended log on the registry classes.
- Clocks. `time.Now()` becomes the `now` parameter (the session start and the `script_<unix>` name).
  `CreatedAt` is that integer, not an RFC 3339 string.
- JSON and the file system. `SaveTouchScript`, `LoadTouchScripts`, `DeleteTouchScript` and
  `getScriptsPath` keep only the file-name computation; marshalling, reading and writing files, the
  scripts directory and `LoadTouchScripts` are not modelled.
- Functions whose code is not part of this model are uninterpreted total functions, fields of the
  `Oracles` datatype: `SearchElementsXPath`, `FindElementAtPoint`, `getNodeAttribute`,
  `countMatchingNodes`, `buildXPath` and `isGenericText`.
- A missing root, selector or result (`nil`) is an `Option`. A `UINode` keeps only the attributes the
  core reads: text, resource id, class, content description, bounds and children.
- Text.ToLower: only ASCII letters are lowered; Unicode case mapping is not modelled.
- Text.Atoi: the 64-bit range limit of `strconv.Atoi` is not modelled.
- SelectorQuery.SplitAdvancedQuery requires a non-empty separator; the callers only pass ` or ` and
  ` and `. The source advances by the length of the original separator and the model by the lowered
  one; the two are equal under ASCII lowering.
- Getevent.DecodeLine: the parser decodes lines with the corrected pattern, which captures `DOWN`
  whole (value 1). As written, automation.go:396 captures `D` (value 13); that reading is
  `Getevent.DecodeLineAsWritten` and `TouchParse.LineStepAsWritten`, and see Findings.
- TouchParse.ParseRawEvents runs on the corrected decoding, so a `DOWN` value starts a stroke and
  sets a coordinate to 1. `TouchParse.DownValueAsWritten` states what the code as written does instead.
- SelectorFind.FindElement gives none for a negative index on a collecting type or xpath, where the
  code as written indexes the slice at a negative position and panics. `SelectorFind.FindElementAsWritten`
  models the panic, `SelectorFind.FindElementAgrees` relates the two, and see Findings.
- TouchParse.StrokeClassification and TouchParse.CloseStroke use unbounded integers. Go's 64-bit
  `int` can overflow, and none of these cases is modelled:
  - `dx*dx + dy*dy` at automation.go:520 and 599 can overflow for unscaled raw values, which can be
    anywhere in the int32 range;
  - `int64((...) * 1000)` at automation.go:436 and `int((...) * 1000)` at 467 are float
    conversions, undefined beyond the range of the integer type;
  - `int(val + 0.5)` at automation.go:491 is the same kind of conversion.
- SelectorQuery.MatchOrJoin, SelectorQuery.MatchAndJoin, SelectorQuery.MatchOrOfAnds and
  SelectorQuery.AndBindsTighter cover conditions that are single words, joined with the upper-case
  separators. Conditions with spaces in them, such as `text : OK`, are not covered by these lemmas.
- SelectorQuery.MatchAndJoin and SelectorQuery.MatchOrOfAnds exclude a word `or` after the first
  condition of an AND group. The source reads `a AND or AND b` as containing ` or `, so it splits it
  at OR first.
- SelectorSuggest.SortByPriority: the order of equal priorities after the exchange sort is not
  stated, only that the result is a permutation sorted by priority.
- SelectorSuggest.GetBestSelector returns no selector when nothing applies, as the code does.
- AdbOutput.CollectDisabled: the `disabledPackages` map of booleans is a set of names.
- Parts of `GetDevices`, `ListPackages`, `GetTouchInputDevice`, `parseRawEvents`,
  `StartTouchRecording` and `PlayTouchScript` are methods of their own, each proved equal to its
  specification function:
  - `ParseLine` is one pass of the line loop of `GetDevices`, and `ReadModel` its inner `model:` loop;
  - `Fetch` is the `fetch` closure of `ListPackages`;
  - `ExamineBlock` is one pass of the block loop of `GetTouchInputDevice`, and `PickBest` its
    best-score loop;
  - `ApplyEvent` is one pass of the loop of `parseRawEvents`;
  - `OpenSession`, which has no loop of its own, is the command sequence of `StartTouchRecording`;
    its axis-range loop is `DetectAxisRanges`;
  - `PlayEvents` is the playback loop of `PlayTouchScript`.
- Regular expressions are modelled only for the patterns the core uses: the `getevent` line, `WxH`,
  `min N, max M`, `[a,b][c,d]` and the file-name character class. There is no general regex engine.

## Findings

| source | as written | input that shows it | evidently intended | confidence | as-written member | corrected member |
|---|---|---|---|---|---|---|
| automation.go:396 | The value group is `([0-9a-fA-F]+\|DOWN\|UP)`, and Go's regexp takes the leftmost alternative that matches. `D` is a hex digit, so `DOWN` is captured as `D` (value 13), and the `DOWN` branch at automation.go:439-440 is dead. This is modelled by `Getevent.MatchLineAsWritten` and `TouchParse.LineStepAsWritten` | `[ 1.000000] EV_ABS ABS_MT_POSITION_X DOWN`: the code as written sets the current X to 13, where `DOWN` means 1 | The keywords tried before the hex digits, so the full `DOWN` is captured and decoded to 1 | not executed | TouchParse.DownValueAsWritten | Getevent.MatchFormattedLine |
| selector.go:150-153 | `if index < len(nodes) { return nodes[index] }` does not guard against a negative index. The same guard is at 160-163, 170-173, 180-183, 190-193 and 203-206, and in the xpath case at 76-78. This is modelled by `SelectorFind.PickAsWritten` and `SelectorFind.FindElementAsWritten` | A selector with `index` -1 on any tree: the slice is indexed at -1 and panics | Return nothing for an index outside `[0, len)` | not executed | SelectorFind.NegativeIndexPanics | SelectorFind.PickAt |
