# potion-debugger, modelled in Dafny

potion-debugger is an in-game debug overlay for the Potion game engine. It
keeps several pieces of state:

- a queue of log lines, each removed once its ten seconds of life have run out;
- a registry of boolean options, toggled from a keyboard menu and persisted
  in the browser's local storage;
- named timers that report the mean of their last ten samples;
- a frame-rate counter smoothed every half second.

It draws all of these on a canvas layer. A dirty-rectangle manager keeps a
box, clears it at the start of the next frame and then resets it. The box is
the bounding box of everything drawn in the frame, joined with the inverted
reset bound: top at the canvas height, left at its width, bottom and right
at 0.

This project models the state engine behind the overlay and proves what it
promises. It has one module per concern:

- `DirtyRegion` (`dirty_manager.dfy`): the dirty-rectangle manager, as a
  class with its four edges and dirty flag. A ghost trace records every
  `clearRect` it issues, and the ghost fields `origin` and `added` record
  the rectangles accumulated since the last reset.
- `Keys` (`keys.dfy`): the positional key map of the option menu, and the
  rule that the first option in menu order whose key matches the pressed key
  wins.
- `LogQueue` (`log_queue.dfy`): the queue as a sequence of entries, and the
  effect on it of `log` and of the decay pass of `exitUpdate`, as functions.
- `Options` (`options.dfy`): the options and their values as a map, the
  persisted blob as an optional snapshot, and a key press as a function from
  one menu state to the next.
- `Timers` (`perf.dfy`): the timer records, the sample window, the mean, the
  first-seen list of names, and the frame-rate smoothing.
- `Layout` (`layout.dfy`): the arithmetic of the drawing code, namely the
  log row positions, menu line positions and labels, and the rectangle a drawn
  text reports.
- `Debug` (`debugger.dfy`): the `Debugger` object as a class whose methods
  update its fields as the source does. Each method is stated against the
  functions above. A class invariant ties the timer fields to ghost
  histories, so a timer's record holds exactly the last ten samples of its
  name.

Where the code and the intended design differ, the model follows the code:

- Lowering `_maxLogsCounts` does not trim the queue. The next push only keeps
  an over-full queue at its length.
- In one decay pass, the entry right after a removed entry is neither
  decremented nor examined. The skip compounds across passes: an entry can
  outlive several frames that each use up its life, so an entry is not
  always removed on, or right after, the frame its life runs out.
- `_load` writes every stored key, registered or not.
- A menu option whose type is neither `toggle` nor `call` still takes the
  key.
- The menu's 46th line (0-based option 45, labelled `^+0`) cannot be reached
  from the keyboard: Ctrl+0 selects the 36th line instead.
- With Ctrl held, option i (0-based) of the first 36 answers to key code
  13 + i. For options 0..34 that key lies outside the digit and letter table:
  Ctrl+Enter (13) selects the first option, and the Ctrl key itself (17) the
  fifth. Option 35 answers to 48, the key `0`, which is why Ctrl+0 never
  reaches line 45.
- `stopPerf` takes as its sample the time now minus the record's value. After
  a `perf` that value is the start time. After another `stopPerf` with no
  `perf` in between, it is the last mean, so the sample is not a time since
  any start.

The clock (`performance.now`) becomes a `now` parameter. The frame time is a
parameter too, and so is the view height (`app.height`). Whether Ctrl is held
becomes a `ctrlDown` parameter. Local storage becomes the `store` field,
holding an optional `Snapshot`. Numbers are Dafny `real`s, with no rounding. A
call option's function is represented by its action name, which is appended
to the ghost trace `calls` when invoked. The function's own effects are not
modelled: a host callback could re-enter the overlay (log, disable it, or
change values), and the model promises only that the press itself changes
nothing else.

## Model

| member | source | states |
|---|---|---|
| DirtyRegion.DirtyManager.constructor | src/dirty-manager.js:1-11 | the edges start at the inverted bound (top = canvas height, left = canvas width, bottom = right = 0), the manager is clean, and nothing is added or cleared yet |
| DirtyRegion.DirtyManager.AddRect | src/dirty-manager.js:13-23 | each edge becomes the min or max of itself and the rectangle's edge, the manager is dirty, the box stays the accumulation of everything added since the reset, and it is a proper box for a rectangle of non-negative size |
| DirtyRegion.DirtyManager.Clear | src/dirty-manager.js:25-39 | on a clean manager nothing changes and nothing is issued; on a dirty one exactly one clearRect is issued, for the accumulated box, and the edges return to the inverted bound taken from the current canvas size |
| DirtyRegion.ResetBounds | src/dirty-manager.js:5-8 | the inverted bound at construction and after a clear: top at the canvas height, left at its width, bottom and right at 0 (the constructor's and Clear's ensures state it as the box) |
| DirtyRegion.Include | src/dirty-manager.js:13-20 | one addRect step on the bound: the top and left edges become the Min, and the bottom and right edges the Max, of the edge and the rectangle's edge (Min and Max are the least and greatest of the two) |
| DirtyRegion.Accumulate | src/dirty-manager.js:13-23 | the bound after a sequence of addRect calls, in order; AccumulateIsBoundingBox characterises it |
| DirtyRegion.Area | src/dirty-manager.js:28-31 | the clearRect argument for a bound: origin at left and top, extent right - left by bottom - top |
| DirtyRegion.AccumulateIsBoundingBox | src/dirty-manager.js:17-20 | each accumulated edge is the least (or greatest) of the starting bound and every added rectangle's edge, and is attained by one of them |
| DirtyRegion.AccumulateIsProper | src/dirty-manager.js:14-20 | after at least one rectangle of non-negative size, left <= right and top <= bottom, whatever the start |
| DirtyRegion.AccumulateAppend | src/dirty-manager.js:17-20 | adding rectangles in two batches is adding them in one |
| DirtyRegion.ClearTwice | src/dirty-manager.js:25-39 | two clears in a row issue at most one clearRect, and exactly one when the manager was dirty |
| Keys.KeyCode | index.js:16-26 | a position has a key code exactly when it is at most 36 |
| Keys.KeyCodeTable | index.js:16-26 | positions 1..9 map to '1'..'9', position 10 to '0', 11..36 to 'A'..'Z' (49..57, 48, 65..90), and above 36 to nothing |
| Keys.KeyCodeAtOrBelowNine | index.js:17-18 | every position up to 9, including 0 and the negative positions Ctrl produces, maps to 48 + position |
| Keys.KeyCodeRoundTrip | index.js:16-26 | the key map and the independent reading of key labels (PositionOfKey) are inverse on positions 1..36 |
| Keys.KeyCodeInjective | index.js:16-26 | two visible positions never share a key |
| Keys.OptionKeyCode | index.js:186-192 | the key code option i answers to: that of position i + 1, less 36 while Ctrl is held |
| Keys.Triggers | index.js:194 | a key triggers an option when the option's code exists, is non-zero and equals the key |
| Keys.FirstMatch | index.js:184-194 | the scan of the options in menu order for the first one the key triggers; FirstMatchIsFirst characterises it |
| Keys.FirstMatchFromIsFirst | index.js:184-207 | the scan from a position finds the first option the key triggers, and finds none exactly when no option from there is triggered |
| Keys.FirstMatchIsFirst | index.js:184-207 | the menu scan finds the first triggered option in menu order, and finds none exactly when no option is triggered |
| Keys.FirstMatchFromFinds | index.js:184-207 | a triggered option with no triggered option before it is the one the scan returns |
| Keys.PlainKeySelectsItsOption | index.js:184-194 | without Ctrl, each of the first 36 options is selected by its own key |
| Keys.CtrlKeySelectsItsOption | index.js:186-194 | with Ctrl, options 36..71 are selected by the key of their position minus 36, except option 45, whose key selects option 35 |
| Keys.CtrlLowKeySelectsOption | index.js:186-194 | with Ctrl held, key code 13 + i selects option i, for each of the first 36 options |
| Keys.OptionFortyFiveIsUnreachable | index.js:184-194 | no key and no Ctrl state selects option 45 |
| Keys.NoMenuKeyOutsideRange | index.js:184-194 | a key code below 13 or above 90 selects no option |
| Layout.LogRowY | index.js:312 | the newest log row's baseline is 10 above the bottom of the view, and no row is lower |
| Layout.LogRowsStackUpward | index.js:312 | rows are 20 apart, with older rows above newer ones |
| Layout.TextDirtyRect | index.js:461-472 | the reported rectangle extends 5 beyond the text on both sides (the text ends at x when right-aligned), starts at y and is 10 taller than the font; it is at least 10 by 10 |
| Layout.RowsPerColumn | index.js:413 | the number of 28-high menu lines that fit below the 14 margin is exactly floor((height - 14) / 28) |
| Layout.ShortcutPosition | index.js:413-418 | a menu line has a position exactly when floor((height - 14) / 28) is non-zero; it is zero for heights of at least 14 and below 42, where the source divides by zero (below 14 the count is negative and the source's arithmetic still gives positions) |
| Layout.ShortcutPositionsAreDistinct | index.js:413-418 | when a line fits, every line lies within the view's height and no two lines share a position |
| Layout.FloorDiv | index.js:417 | Math.floor of a quotient with a non-zero divisor: the q with b·q <= a < b·q + b for b > 0, and b·q >= a > b·q + b for b < 0 |
| Layout.FromCharCode | index.js:425-428 | String.fromCharCode of a key code, where a missing code (`null`) gives the character 0 |
| Layout.ShortcutLabel | index.js:420-429 | the label of menu line i: the character of its key, or `^+` and the character of the key 36 positions lower; ShortcutLabelNamesItsKey relates it to the key that selects the line |
| Layout.ShortcutText | index.js:431-436 | the text of a menu line: the label in brackets, the name, then (ON)/(OFF) for a toggle, (CALL) for a call and nothing else otherwise; ShortcutTextShowsState relates it to the value |
| Layout.ShortcutTextShowsState | index.js:431-436 | a menu line depends on the option's value exactly when the option is a toggle |
| Layout.ShortcutLabelNamesItsKey | index.js:420-429 | each label names the key that selects its line: the plain key for the first 36 lines, `^+` and the key for lines 36..71 (line 45's key selects line 35), and a label no key selects from line 72 on |
| LogQueue.Unescape | index.js:117 | every backslash followed by a quote becomes a quote: unescaping never lengthens the message, keeps its line breaks, leaves a message without backslashes as it is, and undoes Escape (UnescapeEscape) |
| LogQueue.UnescapeEscape | index.js:117 | unescaping a text with a backslash put before every quote gives the text back |
| LogQueue.Split | index.js:117 | splitting gives one more line than there are line breaks, no line holds a line break, and joining the lines gives the text back |
| LogQueue.SplitJoin | index.js:117 | splitting undoes joining for lines without line breaks |
| LogQueue.ColorOrDefault | index.js:114 | a missing (empty) colour becomes white; a given colour is kept; the result is never empty |
| LogQueue.MessageLines | index.js:117 | a message gives one line per line break plus one, none containing a line break, and the lines joined with line breaks are the unescaped message |
| LogQueue.NewEntries | index.js:125-128 | one entry per line, in order, each with life 10 and the given colour |
| LogQueue.Push | index.js:121-130 | one push on the queue: the entry lands last, and the length becomes max(n, min(c, n + 1)) with c taken as at least 1 |
| LogQueue.PushAll | index.js:119-131 | the pushes of log's loop, one per entry in order; PushAllLength and PushAllIsSuffix characterise it |
| LogQueue.PushAllKeepsNewest | index.js:119-131 | pushing k entries onto n with capacity c leaves max(n, min(c, n + k)) entries (c counts as at least 1), and they are the newest of old-then-new, in order |
| LogQueue.PushAllLength | index.js:119-131 | the length after pushing k entries onto n with capacity c is max(n, min(c, n + k)) |
| LogQueue.PushAllIsSuffix | index.js:119-131 | the queue after the pushes is a suffix of the old entries followed by the new ones: only the oldest are evicted |
| LogQueue.PushOverCapacityKeepsLength | index.js:121-123 | a push onto an over-full queue evicts one entry and keeps the length above the capacity |
| LogQueue.Decay | index.js:155-164 | one pass of the decay loop: decrement the entry at the index and splice it out once its life is used up, moving past the entry that takes its place; DecayIsApplyFates and FatesAt characterise it |
| LogQueue.DecayIsApplyFates | index.js:155-164 | a decay pass is an in-order filter: survivors keep their relative order, decremented or untouched as their fates say |
| LogQueue.FatesAt | index.js:155-164 | an entry is skipped exactly when the one before it was removed; otherwise it is removed exactly when its life after the decrement is at most 0 |
| LogQueue.DecayShrinks | index.js:155-164 | a pass never adds entries |
| LogQueue.DecayWithoutExpiry | index.js:155-164 | when no entry runs out in a frame, every entry loses the frame's time and none is removed |
| LogQueue.DecaySkipsTwice | index.js:155-164 | of five entries that two passes each take to or below 0, the fourth survives both passes unchanged |
| LogQueue.DecaySkipsAfterRemoval | index.js:155-164 | two entries that both run out in one frame: the second survives the pass unchanged |
| Options.KindOf | index.js:101 | a missing or empty type is a toggle, `call` is a call, any other string is kept as another kind |
| Options.Normalize | index.js:100-102 | the option keeps its name and entry, gets its kind, and a missing default becomes false |
| Options.InitValue | index.js:104-106 | registering a toggle sets its entry to its default, whatever it held, and leaves every other entry as it was; any other option leaves the values alone |
| Options.NormalizeAll | index.js:50-53 | every option is normalised, in order |
| Options.DefaultValues | index.js:28-32 | the default options give showFps and showKeyCodes on and showGraph off |
| Options.InitAll | index.js:50-53 | the constructor's registration loop as one _initOption per option, in order; InitAllKeys and InitAllHasToggles characterise it |
| Options.InitAllKeys | index.js:50-53 | registration adds exactly the toggles' entries to the keys, and a key no toggle names keeps its old value |
| Options.InitAllHasToggles | index.js:50-53 | after registration every toggle option has a value |
| Options.Lookup | index.js:199 | reading an option's value as a boolean: a missing value (`undefined`) reads false; used for the toggle flip and the menu's on/off state |
| Options.SavedOptions | index.js:231-244 | the saved options are the values of exactly the registered entries that have a value |
| Options.SavedOptionsSnoc | index.js:237-241 | each option of the save loop adds its entry when the entry has a value |
| Options.Loaded | index.js:246-255 | loading writes every stored key over the live values, registered or not, and leaves the other values |
| Options.LoadStep | index.js:251-253 | writing one stored key and dropping it from the keys still to write keeps the outcome of the load |
| Options.SaveThenLoadIsIdentity | index.js:231-255 | loading what was just saved changes no value |
| Options.LoadRestoresSavedEntries | index.js:231-255 | loading a saved blob restores each saved entry, whatever the current values |
| Options.InitAfterLoadOverwrites | index.js:95-107 | a toggle registered after a load starts at its default, not at the loaded value |
| Options.Save | index.js:231-244 | _save on the menu state: the blob becomes the shown flag with the saved option values, and nothing else changes |
| Options.Activate | index.js:197-204 | what a selected option does: a toggle flips its entry and saves, a call is recorded once, any other option does nothing |
| Options.Press | index.js:168-229 | keydown on an enabled overlay: the menu key first, then the first triggered menu option while the menu is shown, then key 123; the Press lemmas below characterise it |
| Options.PressMenuKey | index.js:175-181 | with debug keys on, the menu key flips the menu, is handled, and changes and saves nothing else |
| Options.PressShowDebugKey | index.js:212-226 | key 123 flips whether the overlay is shown and saves, with or without the menu |
| Options.PressMenuToggle | index.js:183-207 | the first triggered toggle flips its own entry only, the blob is saved with the new values, and the key is handled |
| Options.PressMenuCall | index.js:202-204 | the first triggered call option records its action once, and the press changes nothing else in the menu state (the action's own effects are not modelled) |
| Options.PressMenuOther | index.js:194-206 | an option of another type still takes the key and changes nothing |
| Options.PressUnmatched | index.js:183-228 | any key other than the menu key and key 123 is not handled and changes nothing when no option is triggered by it, or when the menu is not in use (hidden, or debug keys off) |
| Options.PressHandledOnlyByKnownKeys | index.js:168-229 | only the menu key, a triggered menu option or key 123 is ever handled |
| Timers.Window | index.js:351-354 | the shift after a push: the samples kept are the newest of them, and at most ten when there were at most eleven |
| Timers.WindowKeepsLastSamples | index.js:351-354 | push-then-shift on the last ten samples gives the last ten samples of the longer history |
| Timers.Mean | index.js:356-361 | the summing loop's average, taken once per sample, adds up to the samples' sum |
| Timers.Elapsed | index.js:349 | stopPerf's sample: now minus the record's value, which is the start time after a perf and the last mean after another stop |
| Timers.StopRecord | index.js:349-363 | the record gets the new sample, keeps at most ten with one shift, and its value becomes their mean |
| Timers.SumToBetween | index.js:356-359 | the sum of k samples in [lo, hi] lies between k·lo and k·hi |
| Timers.MeanBetween | index.js:356-363 | the mean of samples in [lo, hi] lies in [lo, hi] |
| Timers.FirstSeen | index.js:324-327 | a name joins the list at its first perf call and not again, so the list is in first-call order (Debug.Debugger.Perf's ensures append a new name last); FirstSeenIsDistinct shows it holds each started name once |
| Timers.FirstSeenIsDistinct | index.js:324-334 | the list of timer names holds every started name exactly once, and nothing else |
| Timers.Smooth | index.js:148 | one smoothing step: the shown rate moves 80% of the way to the reading and stays between the two |
| Timers.SmoothConverges | index.js:148 | under a constant reading, the distance of the displayed rate to it shrinks by a factor of 0.2 per window |
| Timers.SixtyAfterFiveWindows | index.js:144-149 | from 0 at a steady 60 frames per second, five windows show more than 59.9 |
| Debug.Ceil | index.js:140 | Math.ceil: the least integer at or above its argument |
| Debug.LogCapacity | index.js:140 | the capacity is ceil((height + 20) / 20): the least c with 20c at or above height + 20 |
| Debug.LogCapacityFillsView | index.js:140 | at the capacity exitUpdate sets, a full queue's oldest row sits at or above baseline -10 and the next row below it, so the rows just fill the view |
| Debug.StartKeepsTimersConsistent | index.js:321-341 | starting a timer keeps the timer state consistent: the names are the first-seen names, exactly the names with a record, and each record holds the last ten samples of its name |
| Debug.StopKeepsTimersConsistent | index.js:343-365 | stopping a started timer keeps the timer state consistent, and the new record holds the last ten samples of its name |
| Debug.InitialValues | index.js:50-53 | the constructor's loop leaves the values of registering each default option in order, and every toggle has a value |
| Debug.LoadValues | index.js:251-253 | the load loop writes every stored value over the live values, whatever the order of the keys |
| Debug.Debugger.constructor | index.js:34-84 | the defaults are registered (showFps and showKeyCodes on, showGraph off), and a stored blob's values and shown flag override them; capacity 10, an empty queue, zeroed counters, no timers, debug keys on, menu off, menu key 220, no last key |
| Debug.Debugger.AddConfig | index.js:95-98 | the option is appended after normalisation, and a toggle's value is set to its default |
| Debug.Debugger.Clear | index.js:109-111 | the queue is emptied |
| Debug.Debugger.Log | index.js:113-132 | the queue becomes the push of one fresh entry per message line, its length is max(n, min(c, n + k)), and it is the newest entries of old-then-new |
| Debug.Debugger.ShowFps | index.js:147 | the showFps option's value read as a boolean, which decides whether ExitUpdate smooths the shown rate |
| Debug.Debugger.ExitUpdate | index.js:136-166 | nothing changes while disabled or hidden; otherwise the capacity follows the view height, the queue decays by one pass, and the frame-rate window advances, closing and smoothing the shown rate once it exceeds half a second |
| Debug.Debugger.DecayLogs | index.js:155-164 | the in-place decay loop leaves exactly the decay pass of the queue |
| Debug.DecayStepRemoves | index.js:158-161 | splicing out an entry, and moving past the one that takes its index, keeps the outcome of the pass |
| Debug.DecayStepKeeps | index.js:158 | decrementing a surviving entry in place keeps the outcome of the pass |
| Debug.Debugger.Keydown | index.js:168-229 | nothing changes while disabled; otherwise the key is remembered and the result and the new menu state are those of Press, and every toggle keeps a value |
| Debug.Debugger.Save | index.js:231-244 | the blob holds the shown flag and the value of every registered entry that has one |
| Debug.Debugger.Load | index.js:246-255 | without a blob nothing changes; with one, the shown flag and every stored value are written |
| Debug.Debugger.Perf | index.js:321-341 | nothing changes while hidden; otherwise the timer starts at `now`, and a new name gets an empty record and joins the names; the timer state stays consistent |
| Debug.Debugger.StopPerf | index.js:343-365 | nothing changes while hidden; otherwise the sample, now minus the record's value (its start time after a perf, its last mean after another stop), joins the name's history and the frame's samples, the record holds the last ten samples and shows their mean, and no other record changes |
| Debug.Debugger.Disable | index.js:317-319 | the overlay is disabled |
| Debug.AddConfigAfterReloadOverwrites | index.js:95-107 | a toggle added after building from a blob that holds its entry starts at its default, so it differs from the stored value whenever the two disagree |

## Left out

- Canvas drawing (`render`, `_renderLogs`, `_renderData`, `_renderShortcuts`, `_renderText`), layer creation, fonts (`_setFont`) and `resize`: these are host I/O. Only the coordinates and rectangles they compute are modelled, in `Layout`.
- The font size `_renderText` uses for its rectangle is a parameter of `Layout.TextDirtyRect`, and the text width is one too. `measureText` is host code.
- The positions `_renderData` draws at, the mouse-button readout and the `isKeyDown` colouring are left out. They are drawing and input polling.
- The performance graph (the bars drawn from `_framePerf` and its reset on a drawn frame) is left out. It is pixel scrolling; `_framePerf` is modelled only as the samples `stopPerf` appends.
- `update` is left out: it does nothing.
- `performance.now`, `localStorage` and JSON are replaced by the `now` parameter and the `store` field. Save and load use a snapshot value, and whether a value survives JSON's round trip is not modelled.
- Storage failures are not modelled. `_save` does not check that `localStorage` exists and throws without it (index.js:243), while `_load` does check (index.js:247). `JSON.parse` throws on a corrupt blob (index.js:248). The model's store is always present and always holds a well-formed snapshot or nothing.
- Non-finite coordinates are not modelled. When no menu line fits, `_renderShortcuts` divides by zero and draws at Infinity or NaN, and the dirty box's edges can then become non-finite. `Layout.ShortcutPosition` returns `None` for these coordinates. The model's box is not widened by the menu draw, because drawing is left out (see above), so its edges stay finite.
- `util.inspect` of a non-string message is left out. It is a foreign call; messages are strings, and an empty colour stands for a missing one.
- The `ObjectPool` is left out. Reused objects are fully overwritten, so entries are plain values.
- The shared module-level `defaults` array, which every instance and `addConfig` mutate, is left out. The model gives each overlay its own options.
- Timer names are assumed not to be names that `Object.prototype` supplies (`toString`, `constructor`, `__proto__` and the like). `_perfValues` is a plain object (index.js:68), so for such a name `this._perfValues[name]` is already set on the first `perf` (index.js:324). The name then never joins `_perfNames` and gets no record (index.js:326-333), `record.value = time` writes onto the inherited member (index.js:338-340), and a later `stopPerf` throws at `record.records.push` (index.js:351). The model's map gives every new name an empty record and appends it to the names.
- The JavaScript object holds option values and its own fields in one namespace, so `_load` could overwrite `disabled`. This is not modelled: values live in their own map.
- `preventDefault` on handled keys is left out. It is host event handling.
- The `keyShortcuts` table is modelled as its one entry, key 123, which toggles `showDebug`. The constructor sets that table and never changes it.
- Numbers are unbounded reals and integers. Floating-point rounding is not modelled, including in the frame-rate average and the timer mean.
- Timers.Mean: the mean is stated as Repeat(avg, n) == Sum(samples), i.e. n times the mean is the sum, exactly, over the reals. Division rounding is not modelled.
- Debug.Debugger.StopPerf: requires the timer to have been started while the overlay is shown. The source reads a field of `undefined` there, which is an exception the model does not run.
- Debug.Debugger.Keydown: returns false while disabled, where the source returns `undefined` (also falsy).
- Debug.Debugger.constructor: applies the stored blob through `LoadValues`, the loop `Load` uses, before the object exists. It does not call `Load` on the finished object. Its outcome states the same values and shown flag.
