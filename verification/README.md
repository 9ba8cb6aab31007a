# YouTube-ReStart in Dafny

A model of the two working parts of the YouTube-ReStart browser extension.
The extension sends every YouTube video you open back to 0:00.

- **The content script** (`content.js`) watches for navigations and coalesces them with a 50 ms debounce. It handles each watch URL once (`lastHandledUrl`). It waits up to 10 s for the `<video>` element, then resets the playback position through three triggers:
  - immediately;
  - on `loadedmetadata`;
  - on `playing`.

  A `toastShown` latch limits each attempt to one confirmation notice. A `generation` counter, advanced on every change of the `enabled` flag, voids work already in flight.
- **The options page** (`src/options/options.js`) validates colours and keeps bounded colour histories. It normalises what it loads and clamps what it saves. It also resets the popup fields, merges imported JSON files and handles the duration inputs.

Files:

| file | module | contents |
|---|---|---|
| `optional.dfy` | `Optional` | `Option` |
| `js_values.dfy` | `JsValues` | JavaScript values as storage and `JSON.parse` produce them; truthiness |
| `colors.dfy` | `Colors` | `trim`, `toLowerCase`, `normalizeColor`, `ensureHistoryArray`, `pushColorFifo` |
| `options.dfy` | `Options` | the settings record, `clamp`/rounding, `load`, `buildSavePayload`, `resetSettings`, `handleImportFile`, the duration inputs |
| `video_wait.dfy` | `VideoWait` | `waitForVideoElement` as a bounded poll over clock/query samples |
| `scheduler.dfy` | `Scheduler` | the content script as a state machine: one pure transition per event that resumes it |
| `scheduler_props.dfy` | `SchedulerProperties` | properties of whole event sequences |

How the content script is modelled:

- **State and events.** The script is single-threaded but suspends at every `await`, so several runs of `resetToZeroSafely` can be in flight at once. The model keeps an immutable `State` holding `lastHandledUrl`, the pending debounce task, `generation`, and a map from attempt ids to where each run is suspended. Each event resumes the script and carries the answer the environment gives at that point:
  - a storage read;
  - `location.href`, with its parsed parts;
  - the outcome of the poll;
  - whether assigning `currentTime` threw.
- **Observable effects.** `Run` folds `Step` over a sequence of events. It collects three kinds of effect: an attempt claiming a URL, a position reset, and a notice shown.
- **Values.** JavaScript numbers are finite reals. `Math.round(x)` is `floor(x + 1/2)`.
- **Colour parsing.** `String(v)` of a value other than a string or a one-element array can never match `^#[0-9a-f]{6}$`, so those values normalise to nothing. Values from storage or `JSON.parse` hold no functions. So `String(v)` throws a `TypeError` for an object with its own `toString` key, and for an array holding such a value (`StringThrows`). `NormalizeColorOrThrow` and `EnsureHistoryArrayOrThrow` carry that exception, and `load` and the import merge are modelled with it. The same conversion happens when `syncUiFromDraft` assigns the position to its form control (src/options/options.js:314), since the position is copied without a check (`SyncThrows`).

## Model

| member | source | states |
|---|---|---|
| Colors.Trim | src/options/options.js:112 | `trim` leaves a string that neither starts nor ends with white space and is obtained from its input by dropping white space at both ends only |
| Colors.ToLower | src/options/options.js:112 | `toLowerCase` keeps the length, leaves no upper-case ASCII letter, and changes nothing but upper-case letters |
| Colors.NormalizeColor | src/options/options.js:107-118 | a falsy value gives null; any accepted colour is exactly `#` and six lower-case hex digits |
| Colors.NormalizeColorOfString | src/options/options.js:107-118 | a string is accepted as colour `c` if and only if `c` is canonical and the string is `c`, in any letter case, padded with white space |
| Colors.NormalizeColorIdempotent | src/options/options.js:107-118 | normalising an accepted colour again gives the same colour |
| Colors.ThrowingGivesNull | src/options/options.js:107-118 | a value whose `String()` throws is never a colour, so the exception-free `NormalizeColor` gives null for it |
| Colors.NormalizeColorOrThrow | src/options/options.js:107-118 | `normalizeColor` throws exactly for the values whose `String()` throws; where it returns, it agrees with `NormalizeColor`, and only a string or an array can yield a colour |
| Colors.CanonicalIsFixed | src/options/options.js:112-115 | a canonical colour is accepted unchanged |
| Colors.ValidColors | src/options/options.js:198-200 | the mapped and filtered list holds only canonical colours and is no longer than its input |
| Colors.ValidColorsEmpty | src/options/options.js:198-201 | the filtered list is empty exactly when no entry normalises to a colour |
| Colors.ValidColorsAllSome | src/options/options.js:198-200 | when every entry normalises to a colour, the filtered list is those colours in their original order |
| Colors.ValidColorsAppend | src/options/options.js:198-200 | filtering keeps the original order: it distributes over concatenation |
| Colors.EnsureHistoryArray | src/options/options.js:193-207 | the result is never empty and holds only canonical colours; a non-array, or an array with no colour, gives the template palette; otherwise it gives the normalised colours in order |
| Colors.EnsureHistoryArrayOrThrow | src/options/options.js:193-200 | `ensureHistoryArray` throws exactly for an array with an entry whose normalisation throws; otherwise it returns `EnsureHistoryArray`'s result |
| Colors.StoredHistoryNeverThrows | src/options/options.js:193-200 | a history stored as a JSON array of strings never makes `ensureHistoryArray` throw |
| Colors.EnsureHistoryOfStored | src/options/options.js:193-207 | a non-empty list of canonical colours, stored as a JSON array, reads back as itself |
| Colors.IndexOf | src/options/options.js:217 | `indexOf` gives -1 exactly when the colour is absent, and otherwise the position of its first occurrence |
| Colors.RemoveFirst | src/options/options.js:217-220 | the splice leaves the history as it is when the colour is absent; otherwise it is one shorter, with the entries before the first occurrence in place and the later ones moved down by one |
| Colors.PushedHistory | src/options/options.js:215-228 | after a push the colour is the newest entry, there are at most 10 entries, and every entry is the colour or came from the old history |
| Colors.PushKeepsDistinct | src/options/options.js:215-228 | pushing onto a history without repeats gives one without repeats, holding the colour exactly once |
| Colors.PushExistingIsMove | src/options/options.js:217-222 | picking a colour already in a history of at most 10 only moves it: same length, same multiset |
| Colors.ShiftToCapacity | src/options/options.js:224-226 | shifting until at most `cap` entries remain leaves the newest `cap` entries |
| Colors.MoveToNewest | src/options/options.js:215-228 | the list loop drops the first copy of the colour, appends it, and shifts from the front down to 10 entries: the result is the newest end of the old history with the colour moved or appended |
| Colors.PushColorFifo | src/options/options.js:209-229 | for the string or null every caller passes, an invalid colour returns the history unchanged; a valid one is removed from its old place, appended as newest, and the oldest entries are dropped down to 10 |
| Options.Clamp | src/options/options.js:105 | the result lies in `[min, max]`; it is the input when that is in range and the nearer bound otherwise |
| Options.RoundHalfUp | src/options/options.js:405 | `Math.round` gives the integer within one half of its argument, halves going up |
| Options.Snap10 | src/options/options.js:405 | `Math.round(x / 10) * 10` is a multiple of ten within 5 of `x` |
| Options.Snap10Fixed | src/options/options.js:405 | a multiple of ten is left unchanged by rounding to ten |
| Options.Snap10Monotonic | src/options/options.js:405 | rounding to ten preserves order |
| Options.AnimationMs | src/options/options.js:404-408 | the normalised animation duration is a multiple of ten in `[100, 1000]`; it is within 5 ms of an input already in range, 100 for an input below 100, and 1000 for one above 1000 |
| Options.LoadDraft | src/options/options.js:373-416 | every loaded draft is within the saved bounds and has canonical colours; `enabled` and `showToast` follow truthiness; a falsy position becomes `center`; an in-range scale or duration is kept, one out of range becomes the nearer bound, and a non-number scale, duration or animation duration becomes 1.5, 2000 or 500; a numeric animation duration becomes its rounded and clamped form (`AnimationMs`); each colour is its normalised form or else its default; a non-boolean animation flag becomes true and non-string CSS becomes empty; each history keeps its last 10 cleaned entries |
| Options.NewestHistory | src/options/options.js:410-415 | the history keeps its newest `min(10, length)` entries, in order |
| Options.Oldest | src/options/options.js:440-441 | `slice(0, 10)` gives the first `min(10, length)` entries, in order |
| Options.BuildSavePayload | src/options/options.js:421-445 | the payload's numbers are within bounds; an in-range scale or duration is kept, one out of range becomes the nearer bound, and the animation duration is rounded to ten, then clamped; each history is its first `min(10, length)` entries; flags, position, colours and CSS are copied; a well-formed draft gives a bounded payload |
| Options.SaveOfBoundedIsIdentity | src/options/options.js:421-445 | saving a draft that is already within bounds changes nothing |
| Options.LoadThenSave | src/options/options.js:373-445 | saving right after a load writes back exactly the loaded draft |
| Options.LoadOfStoredBounded | src/options/options.js:373-416 | a record already within bounds, once stored, loads back as itself |
| Options.Store | src/options/options.js:452 | a save writes every settings key, and only those |
| Options.ReadStoredPayload | src/options/options.js:374 | reading with the defaults after a save returns the saved values, none of the defaults |
| Options.SaveThenLoad | src/options/options.js:373-452 | saving any well-formed draft and loading the storage area again gives back exactly the saved payload |
| Options.PositionOrThrows | src/options/options.js:314 | after the `center` fallback, the position shown throws on conversion exactly when the stored or imported one does |
| Options.Load | src/options/options.js:373-418 | `load` leaves no draft exactly when a stored colour or a stored history array holds a value whose `String()` throws; otherwise the draft is `LoadDraft`'s; it ends with an exception exactly when it left no draft or the stored position's `String()` throws in the form sync |
| Options.StoredPayloadLoads | src/options/options.js:373-452 | loading what the page saved from any well-formed draft gives back the saved payload, and throws only when the saved position is a value whose `String()` throws |
| Options.EmptyStorageLoadsDefaults | src/options/options.js:14-32 | with nothing stored, load yields exactly the defaults: on, notice shown, centred, scale 1.5, 2000 ms, the default colours, animation on at 500 ms, the template histories and no CSS |
| Options.ResetSettings | src/options/options.js:457-481 | a declined confirmation, or no draft, changes and saves nothing; otherwise the seven popup fields take their reset values, all other fields are kept, and the save payload of the result is written |
| Options.EndsWithIsSuffix | src/options/options.js:589 | `endsWith` holds exactly when the name is something followed by the suffix |
| Options.IsJsonFile | src/options/options.js:589 | a file is taken as JSON exactly when its type is `application/json` or its name ends in `.json` |
| Options.HasRequiredFields | src/options/options.js:599-600 | a payload passes exactly when it is an object holding all of `enabled`, `showToast`, `toastPosition`, `toastScale` and `toastDurationMs` |
| Options.MergeImport | src/options/options.js:612-623 | flags follow truthiness; a falsy position becomes `center`; scale and both durations are taken as imported when they are numbers, unclamped, else 1.5, 2000 and 500; an imported colour replaces the draft's when it normalises and the draft's is kept otherwise; the animation flag is the imported boolean or true; histories are cleaned by `ensureHistoryArray`, without the load's cut to 10; CSS is the imported string or empty; a well-formed draft stays well-formed |
| Options.FirstThrow | src/options/options.js:617-622 | the first throwing assignment of the merge is one of the two colours or the two histories, in assignment order, and there is one exactly when some conversion throws |
| Options.ImportMerge | src/options/options.js:612-632 | the merge stops with an exception exactly when a colour or history conversion throws |
| Options.ImportMergeAssigns | src/options/options.js:612-623 | the fields assigned before the first throwing one hold the full merge's values and the rest keep the draft's; without a throw the result is the full merge; a well-formed draft stays well-formed |
| Options.HandleImportFile | src/options/options.js:583-637 | a file that is not JSON by type or name, does not parse, or lacks a required field shows "not supported" and leaves the draft alone; an accepted file with a draft is merged, showing "loaded" and giving the full merge when no conversion throws; when a colour or history conversion throws it shows "not supported" with the fields before the throw already merged, and when only the form sync throws on the position it shows "not supported" with the full merge in the draft; without a draft or a file nothing happens; a well-formed draft stays well-formed |
| Options.RejectedImportStillChangesDraft | src/options/options.js:612-632 | a file whose background colour is an object with a `toString` key is reported as not supported, yet has already switched the feature off in the draft |
| Options.RejectedPositionImportIsMerged | src/options/options.js:612-632 | a file whose position is an object with a `toString` key is reported as not supported, yet the whole import is already in the draft |
| Options.HandleImportFileAtomic | src/options/options.js:583-637 | with the merge made all-or-nothing, the notices are the same and the draft changes only on "loaded", to the full merge |
| Options.AtomicImportAgrees | src/options/options.js:583-637 | the all-or-nothing import shows the same notice as the page's, and gives the same result whenever the payload is an object whose merge and form sync do not throw |
| Options.ImportThenSaveIsBounded | src/options/options.js:583-637 | an import into a well-formed draft, all-or-nothing or as the page runs it, always yields a payload within bounds once saved |
| Options.OnDurationInput | src/options/options.js:767-800 | only the toast duration changes; it becomes the clamped seconds times 1000, so it is in `[1000, 10000]` and equals `value * 1000` for `value` in `[1, 10]` |
| Options.OnAnimationDurationInput | src/options/options.js:814-829 | only the animation duration changes; it becomes a multiple of ten in `[100, 1000]` |
| Options.AnimationOrderAgrees | src/options/options.js:814-829 | the slider's clamp-then-round equals the round-then-clamp of load and save |
| VideoWait.WaitForVideoElement | content.js:76-87 | an element is returned only from a poll within the timeout, after polls that all found nothing; null only once the clock shows the timeout elapsed; with polls at least 100 ms apart the wait ends within `timeout/100 + 1` polls |
| VideoWait.WaitForAttemptVideo | content.js:156 | with the 10 s timeout of a reset attempt and polls at least 100 ms apart, the wait is decided by the 101st poll at the latest |
| Scheduler.IsWatchUrl | content.js:67-74 | a location is a watch page exactly when it parses, its host is `www.youtube.com`, its path is `/watch` and it has a `v` parameter |
| Scheduler.GetEnabled | content.js:24-33 | the feature is off exactly when the read succeeds and the stored value is the boolean `false`; a failed read or a non-boolean value means on |
| Scheduler.CancelPending | content.js:89-94 | no task is pending afterwards, and nothing else changes |
| Scheduler.ScheduleHandle | content.js:207-214 | the only pending task is a fresh timer carrying the new reason; nothing else changes |
| Scheduler.OnTimerFired | content.js:209-212 | only the timer of the pending task starts an attempt, clearing the pending task and changing nothing else (the timer counter included); any other timer changes nothing |
| Scheduler.OnStorageChanged | content.js:96-130 | changes outside `sync`/`local`, or without `enabled`, are ignored; otherwise the generation goes up by one; turning off cancels the pending task; turning on from off on a watch page marks that page handled and cancels the pending task |
| Scheduler.OnEntryRead | content.js:132-154 | a disabled flag, a non-watch page or the URL already handled finishes the attempt silently; otherwise the URL is claimed and the current generation captured |
| Scheduler.OnVideoWaitDone | content.js:156-204 | a timed-out poll finishes the attempt; a found element arms both listeners with the latch down, for the attempt's own URL, and the immediate trigger passes its check only if the generation is unchanged; every other attempt is left as it was |
| Scheduler.MediaFired | content.js:194-204 | a listener fires once and deregisters; its trigger passes the generation check only if the captured generation is current |
| Scheduler.OnMedia | content.js:194-204 | a media event reaches the listener of every attempt armed on that element, and changes nothing else |
| Scheduler.OnTriggerRead | content.js:171-188 | a trigger reading disabled, or whose assignment throws, has no effect; otherwise its effects are exactly one reset of the attempt's element, followed by the notice when the latch was down |
| Scheduler.Init | content.js:252-260 | start-up schedules one task with reason `initial` |
| SchedulerProperties.RunInv | content.js:18-22 | over any run, pending timers and attempt ids stay fresh, no attempt holds a future generation, and the generation never decreases |
| SchedulerProperties.PastRun | content.js:207-214 | a timer older than the pending one stays older over any run |
| SchedulerProperties.SupersededTaskNeverFires | content.js:207-214 | once a new task is scheduled, no timer issued before it ever fires to any effect, whatever events come in between |
| SchedulerProperties.BurstRun | content.js:207-214 | after a burst of signals only the last one's task is pending, on the newest timer, and whatever follows runs from that state |
| SchedulerProperties.TimersRun | content.js:209-212 | timers firing in any order show nothing, and only the pending timer, the first time it fires, changes the state |
| SchedulerProperties.DebounceCoalesces | content.js:207-214 | a burst of any number of signals, with timers firing in any order, starts exactly one attempt, for the last reason |
| SchedulerProperties.NoticeRun | content.js:162-189 | over any run, the notices shown for an attempt equal the rises of its latch |
| SchedulerProperties.NoticeAtMostOncePerAttempt | content.js:162-189 | from start-up, whatever happens, each attempt shows the notice at most once |
| SchedulerProperties.QuietRun | content.js:164-169 | an attempt that has returned, or is stale with no trigger past its check, never resets nor notifies again |
| SchedulerProperties.ToggleVoidsWaitingAttempt | content.js:109-110 | a change of `enabled` while an attempt waits for its video means that attempt never resets nor notifies |
| SchedulerProperties.TimedOutAttemptIsFinal | content.js:156-159 | an attempt whose poll timed out never resets nor notifies |
| SchedulerProperties.HandledUrlIsNotHandledAgain | content.js:147-152 | while the page stays at the URL last handled, no event sequence starts another attempt |
| SchedulerProperties.OffToOnSkipsDisplayedVideo | content.js:119-127 | switching on from off on a watch page means no attempt starts while the page stays there |
| SchedulerProperties.FirstVisitResetsOnceWithOneNotice | content.js:132-204 | a first visit resets on the immediate trigger and on `loadedmetadata`, and shows one notice |
| SchedulerProperties.ToggleDuringTriggerReadStillResets | content.js:164-176 | switching off and on again while a trigger's `getEnabled()` is pending does not stop that trigger's reset |

### Where the code falls short of its comments

The model follows the code here.

- `tryReset` compares generations before it awaits `getEnabled()`, not after (content.js:166-172). Its own comments set two aims:
  - a switch of ON/OFF midway voids the call (content.js:165);
  - the `enabled` check right before applying is there to stop it running while off (content.js:171).

  The listener's comment says that switching OFF→ON must not reset the video on screen (content.js:119-120). Yet a switch off and back on while that read is pending still lets the reset apply, because the read sees the flag on again, and the reset hits the video on screen. `SchedulerProperties.ToggleDuringTriggerReadStillResets` exhibits one such run.
### Load and save keep different ends of a long history

`load` keeps the newest 10 history entries (the `shift` loops at src/options/options.js:410-415), but `buildSavePayload` keeps the oldest 10 (src/options/options.js:440-441). They only differ for a history longer than 10, and only an import can produce one, since import neither truncates nor clamps.

## Findings

| source | as written | input that shows it | evidently intended | confidence | as-written member | corrected member |
|---|---|---|---|---|---|---|
| src/options/options.js:612-632 | the import merge assigns the draft's fields one at a time. When `normalizeColor` or `ensureHistoryArray` throws, the `catch` reports "not supported", but the fields assigned before the throw stay changed in the draft, which the next save writes; the dirty mark and the form are not updated | a `.json` file holding the five required keys with `"enabled": false`, plus `"toastBgColor": {"toString": 0}` | a file reported as not supported leaves the draft as it was | not executed | Options.HandleImportFile, Options.RejectedImportStillChangesDraft | Options.HandleImportFileAtomic |
| src/options/options.js:614-632 | the position is copied from the file unchecked. After the merge and the dirty mark, `syncUiFromDraft` assigns it to the position control, whose setter converts it to a string and throws for an object with a `toString` key. The `catch` reports "not supported" while the whole import stays in the draft, and a save can store the position, after which every `load` throws at the same spot (src/options/options.js:418) | a `.json` file holding the five required keys with `"enabled": false` and `"toastPosition": {"toString": 0}` | a file reported as not supported leaves the draft as it was | not executed | Options.HandleImportFile, Options.RejectedPositionImportIsMerged | Options.HandleImportFileAtomic |

## Left out

- Rendering: the toast element, the option page's DOM, tabs, palettes and the save notice. The notice is the `NoticeShown` effect. `syncUiFromDraft` appears only through the one conversion in it that can throw, on the position (`SyncThrows`); the model assumes the position control is present.
- The navigation hooks (`history.pushState`/`replaceState`, `popstate`, `yt-navigate-finish`, the `MutationObserver`). They are `Signal` events; the reason they carry is only logged.
- URL parsing. A `Location` carries the parts `new URL` would give, or none when it throws.
- `Scheduler.GetEnabled`: the read's answer is a free input, unrelated to earlier `StorageChanged` events, because the storage areas are not modelled. The code reads only `chrome.storage.sync` (content.js:26), while the listener also reacts to `local` (content.js:99), and the options page stores `enabled` in `local` (src/options/options.js:4, 452). A disable saved from the options page therefore voids work in flight but is never seen by `getEnabled`, so later navigations still reset. The model does not exhibit this.
- `chrome.storage` I/O. A read is an event carrying its answer. A write is the record returned (`ResetResult.saved`; `save` writes `BuildSavePayload`).
- Real timers and the clock. The 50 ms debounce is the `TimerFired` event. The poll's clock readings are `VideoWait.Sample`s.
- `NaN`, `Infinity` and `-0`. Numbers are finite reals. The page never stores these, since every save clamps. An imported file can carry two of them: `JSON.parse` (src/options/options.js:596) reads `1e400` as `Infinity` and `-0` as `-0`. Import takes a numeric scale or duration unclamped, so the draft can hold them until the next save, which clamps them like any other out-of-range number. `NaN` cannot come from JSON.
- Input fields holding non-numeric text, for which `Number(...)` gives `NaN`. The handlers take the number the field holds.
- `Scheduler.OnVideoWaitDone`: does not model that the poll ran on `VideoWait.WaitForVideoElement`. It takes the poll's outcome as given.
- `Colors.NormalizeColor`: gives null where `normalizeColor` throws. The calls that can meet such a value, in `load` and the import merge, are modelled with `NormalizeColorOrThrow` and `EnsureHistoryArrayOrThrow` instead. The colour-picker calls only pass strings.
- `toLowerCase` on non-ASCII letters. No such letter lower-cases to `#` or a hex digit, so acceptance is unaffected.
- The toast-scale slider, the colour pickers, the custom-CSS box, export and the file dialog. These are UI wiring, not validation or merging.
- The `log` calls. Their switch is a constant that is off.
