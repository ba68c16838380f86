# Read-Aloud popup, modelled in Dafny

Read-Aloud is a browser-extension popup. It reads the active tab's visible text
aloud with the browser's speech engine. Its whole controller is `script.js`, and
this project models three parts of it:

- **The voice catalogue.** `loadVoices` caches the host's voice list and rebuilds
  the voice dropdown. The dropdown offers only the voices whose language tag
  contains one of `en-IN`, `hi-IN`, `ta-IN`, `bn-IN`, `mr-IN`, `en-US`, in the
  host's order. Each entry stores the voice name and shows `name (lang)`.
- **Voice resolution.** An utterance gets the first cached voice whose name is
  the dropdown's value. If there is none, it gets the first cached voice. If the
  cache is empty, it gets no voice and the host's default applies. Both the
  lookup and the fallback search the whole cache, not only the voices offered.
- **The reading session.** The state is one flag, `isReading`. The start click,
  the extraction callback, `speakText`, the utterance's `onstart`/`onend` and
  `stopReading` act on it. `updateUIState` projects it onto the reading
  indicator, the start button's text and the button's `btn-primary`/`btn-success`
  classes.

Files:

- `wrappers.dfy`: `Option`.
- `js_string.dfy`: `String.prototype.includes` and `String.prototype.trim`.
  Whitespace is the ECMAScript WhiteSpace and LineTerminator set (sections 12.2
  and 12.3 of ECMA-262).
- `voice_catalog.dfy`: the filter, the dropdown entries and voice resolution, as
  functions with lemmas.
- `reading_ui.dfy`: the projection done by `updateUIState`, as a pure function on
  a `View` value.
- `popup.dfy`: class `Controller`. It has the script's global state as fields
  and each handler as a method. The environment calls the methods one at a time.
  Calls made on the speech engine (`speak`, `cancel`) are recorded in `hostCalls`.
- `scenarios.dfy`: whole runs over concrete voice lists and event orders.

Four behaviours of the code are easy to misread. The model follows the code in
each.

- The start guard (script.js:102) and the `speakText` guard (script.js:40) test
  `isReading`. But `isReading` becomes true only in `onstart` (script.js:47). So
  two start clicks before the host reports `onstart` both reach the speech engine
  (`Scenarios.DoubleStartBeforeOnStart`). Nothing ensures at most one utterance.
- When the extracted text is blank, the code forces the inactive UI but does not
  change `isReading` (script.js:69-72). If an earlier utterance is playing, the UI
  then shows "Start Reading" while `isReading` is true
  (`Scenarios.BlankResultWhileReading`).
- `stopReading` does not cancel a pending extraction. If the stop click comes
  after the start click but before the extraction calls back (script.js:64-68),
  the late callback still calls `speakText` with `isReading` false (script.js:81).
  So an utterance is sent after the cancel (`Scenarios.StopBeforeExtraction`).
- When the rate input does not parse to a finite number, assigning the rate
  (script.js:44) throws before `speak` is reached, so nothing is sent
  (`Scenarios.NonNumericRate`).

## Model

| member | source | states |
|---|---|---|
| `JsString.IncludesIff` | script.js:19-24 | The left-to-right scan `Includes(s, t)` holds exactly when `t` occurs in `s` at some index. |
| `JsString.TrimStart` | script.js:66 | The result is a suffix of the input. Everything dropped is whitespace. A non-empty result does not start with whitespace. |
| `JsString.TrimEnd` | script.js:66 | The result is a prefix of the input. Everything dropped is whitespace. A non-empty result does not end with whitespace. |
| `JsString.TrimShape` | script.js:66 | The trim is a substring of the input with only whitespace on either side. A non-empty trim has non-whitespace at both ends. |
| `JsString.TrimEmptyIff` | script.js:66 | The trim is empty exactly when the input is all whitespace. |
| `JsString.TrimKeepsUnpadded` | script.js:66 | A non-empty string with no whitespace at either end is its own trim. |
| `JsString.TrimIdempotent` | script.js:66 | Trimming twice equals trimming once. |
| `VoiceCatalog.PreferredTagsDisjuncts` | script.js:18-25 | The six `includes` disjuncts of the filter are exactly "the language tag includes some entry of `PreferredTags`". |
| `VoiceCatalog.PreferredIff` | script.js:18-25 | A voice passes the filter exactly when one of the six tags occurs as a substring of its language tag. |
| `VoiceCatalog.FilterSound` | script.js:17-25 | The filtered list is no longer than the input. Each element comes from the input and passes the filter. |
| `VoiceCatalog.FilterAppend` | script.js:17-25 | Filtering distributes over concatenation, so the host's relative order is kept. |
| `VoiceCatalog.FilterCount` | script.js:17-25 | A passing voice appears as many times as the host lists it. A failing voice never appears. |
| `VoiceCatalog.FilterMembership` | script.js:17-25 | A listed voice is absent from the filtered list exactly when its language tag includes none of the six tags. |
| `VoiceCatalog.Render` | script.js:26-31 | The forEach produces one entry per kept voice, in order. Entry k is the option for voice k. |
| `VoiceCatalog.RenderSnoc` | script.js:26-31 | Appending one voice appends exactly its option. |
| `VoiceCatalog.DropdownAt` | script.js:28-29 | Dropdown entry k has value `name` and text `name (lang)` of the k-th kept voice. |
| `VoiceCatalog.FindByName` | script.js:43 | `find` returns the index of the first voice with the name, or nothing when no voice has it. |
| `VoiceCatalog.ResolveVoice` | script.js:43 | A voice results exactly when the cache is non-empty, and it is a cached voice. It is the first name match if there is one, else `voices[0]`. |
| `VoiceCatalog.ResolveDropdownEntry` | script.js:43 | Choosing any dropdown entry resolves to a cached voice with that entry's name. |
| `ReadingUi.Project` | script.js:86-98 | `true` gives the indicator visible, "Reading...", `btn-success` and no `btn-primary`. `false` gives the reverse. Every other class is untouched. |
| `ReadingUi.ProjectLastWins` | script.js:86-98 | Projecting twice equals projecting only with the second state. |
| `ReadingUi.ProjectIdempotent` | script.js:86-98 | Projecting twice with the same state equals projecting once. |
| `ReadingUi.ProjectFixesShown` | script.js:86-98 | A view already showing the appearance for the state is left unchanged. |
| `Popup.PageText` | script.js:66-67 | An absent result gives no text. A present result gives no text exactly when it is all whitespace. |
| `Popup.Controller.constructor` | script.js:8-9 | The popup starts not reading, with no host calls, no pending extraction, the given rate input and the voices loaded once (script.js:35-36). The dropdown then holds its first entry's value, or the empty string when it has no entry. |
| `Popup.Controller.LoadVoices` | script.js:12-32 | The cache becomes the host list and the dropdown becomes exactly its filtered entries. Nothing from an earlier load survives. The dropdown's value resets to its first entry. |
| `Popup.Controller.ChooseVoice` | script.js:43 | The dropdown value becomes the chosen entry's voice name, and the dropdown invariant is kept. |
| `Popup.Controller.SetRate` | script.js:44 | The rate input holds the given text, and whether it parses to a finite number is recorded. |
| `Popup.Controller.UpdateUIState` | script.js:86-98 | The visible fields become the projection of the old view onto the given state. |
| `Popup.Controller.StartClick` | script.js:101-103 | An extraction is requested exactly when not reading. |
| `Popup.Controller.SpeakText` | script.js:39-57 | Empty text, text while reading, or a rate that is not a finite number sends nothing. Otherwise exactly one utterance is sent, with the text, the resolved voice and the rate input. When the dropdown is non-empty, the sent voice has the dropdown's value as its name. |
| `Popup.Controller.OnExtractionResult` | script.js:64-73 | Blank or absent text sends nothing, keeps `isReading` and forces the inactive UI. Otherwise the trimmed text goes through `speakText`: sent exactly when not reading and the rate is finite. |
| `Popup.Controller.OnStart` | script.js:46-49 | Reading, with the active UI. |
| `Popup.Controller.OnEnd` | script.js:51-54 | Not reading, with the inactive UI. |
| `Popup.Controller.StopReading` | script.js:79-83 | Whatever the prior state, a cancel is sent, and then the popup is not reading and shows the inactive UI. |
| `Scenarios.KlausNotPreferred` | script.js:18-25 | A `de-DE` voice fails the filter. |
| `Scenarios.ThreeVoiceFilter` | script.js:17-25 | Of Alice (en-US), Ravi (en-IN) and Klaus (de-DE), the filter keeps Alice and Ravi, in that order. |
| `Scenarios.ThreeVoiceDropdown` | script.js:17-31 | Alice (en-US), Ravi (en-IN), Klaus (de-DE) give the dropdown "Alice (en-US)", "Ravi (en-IN)". |
| `Scenarios.ResolveRavi` | script.js:43 | Selecting "Ravi" over that cache gives Ravi. |
| `Scenarios.FallbackAbsentFromDropdown` | script.js:43 | With only a `de-DE` voice cached, the dropdown is empty, yet the utterance gets that voice. |
| `Scenarios.SameNameResolvesToEarlierVoice` | script.js:43 | An entry made from Ravi (en-IN) resolves to an earlier filtered-out Ravi (de-DE). |
| `Scenarios.InitialPopup` | script.js:35-36 | After startup on the three voices, the dropdown has two entries, the second storing "Ravi", and the dropdown's value is "Alice". Nothing has been sent, and "Ravi" resolves to Ravi. |
| `Scenarios.RaviAtOnePointFive` | script.js:101-103 | After choosing Ravi, setting the rate to "1.5" and one start click, the selection resolves to Ravi, one extraction is pending and nothing has been sent. |
| `Scenarios.ReadPageWithRavi` | script.js:39-57 | Ravi at rate "1.5" on unpadded page text sends exactly one utterance of that text. The UI is active after `onstart`, inactive and not reading after `onend`. |
| `Scenarios.ReadHelloWorld` | script.js:39-57 | With the page text "Hello world", exactly the utterance ("Hello world", Ravi, "1.5") is sent. |
| `Scenarios.DoubleStartBeforeOnStart` | script.js:40 | With any unpadded page text, two start clicks before `onstart` send two utterances of that text (script.js:102). |
| `Scenarios.StopBeforeStarted` | script.js:79-83 | Stopping after an utterance is submitted but before `onstart` sends a cancel and leaves the popup idle and inactive. A late `onend` changes neither the flag nor the UI. |
| `Scenarios.BlankPage` | script.js:66-72 | Any all-whitespace page text sends nothing, leaves the popup not reading and shows the inactive UI. |
| `Scenarios.BlankResultWhileReading` | script.js:69-72 | A blank result that arrives while reading forces the inactive UI, while `isReading` stays true. |
| `Scenarios.StartWithoutChoosing` | script.js:36-56 | Starting without choosing a voice sends one utterance of the page text with Alice, the dropdown's first entry, at rate "1". |
| `Scenarios.StopTwice` | script.js:79-83 | Stopping twice while an utterance is playing: the first stop turns the active UI inactive and clears the flag, the second leaves flag and UI as they were and sends a second cancel. |
| `Scenarios.NonNumericRate` | script.js:44 | With a rate that does not parse to a finite number, page text sends nothing and leaves the popup not reading and its UI unchanged. |
| `Scenarios.StopBeforeExtraction` | script.js:64-68 | A stop between the start click and the extraction's callback sends a cancel, and the late callback then sends an utterance of the page text (script.js:79-83). |

## Left out

- DOM element lookup and the `innerHTML`/`createElement`/`appendChild` mechanics (script.js:2-6, 14, 27, 30). The dropdown is a sequence of (value, text) pairs, and the visible fields are plain fields.
- The dropdown's value after a reload follows the HTML `select` element: its first entry, or the empty string when it has none. The model writes this reset out instead of deriving it from the DOM.
- `chrome.tabs.query` and `chrome.scripting.executeScript` (script.js:61-64). They are cross-process host calls with a permission model. The extraction result is an `Option<string>` input to `OnExtractionResult`. A start click adds a pending extraction, and a result can arrive only for a pending one. A failure that never calls back (e.g. no active tab) just leaves the extraction pending.
- The page-side extraction function, `innerText || textContent` (script.js:63). It runs inside the page, so its output is an input here.
- The speech engine's voice enumeration, audio rendering and `cancel` internals (script.js:13, 56, 80). `getVoices()` is the parameter of `LoadVoices`. `speak` and `cancel` are recorded as host calls. Whether and when the engine fires `onstart`/`onend` is up to the environment.
- `parseFloat(rateInput.value)` (script.js:44) is floating-point parsing. The utterance carries the raw text of the rate input, and whether it parses to a finite number is an input to `SetRate` and the constructor.
- `console.warn` (script.js:70), styling and markup. The popup's initial markup is a constructor parameter.
- Asynchronous scheduling. Each callback is an atomic method, called one at a time. No claim is made about concurrency.
- `classList` is an ordered token list. The model keeps it as a set, so token order is not modelled.
- JavaScript strings are UTF-16 code units, while Dafny strings are Unicode scalar values. Lone surrogates cannot be represented. No whitespace character lies outside the Basic Multilingual Plane, so `trim` is unaffected.
- `Popup.Controller.ChooseVoice`: keeps the dropdown invariant only when it held before, rather than requiring it. Every constructed controller satisfies it.
- Neither the model nor the code keeps an invariant tying `isReading` to the UI, because the code does not maintain one (`Scenarios.BlankResultWhileReading`).
