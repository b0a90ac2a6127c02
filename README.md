# DVC assistant: a Dafny model of the phase orchestrator, step executor and page extractor

The DVC assistant is a browser extension that helps a user fill in forms on a
public-services portal (Dịch vụ công). A widget frame (`App.tsx`) keeps a session: a
ten-valued status, the survey answers, the current step list, the phase record and a
cursor. The session moves from the survey to a remote workflow webhook and back. The
webhook's loosely shaped reply is normalised into a phase record and a list of DOM steps.
The content script (`content.js`) runs these steps one at a time on the host page, scans
the page between phases, and shows or hides the widget. The page extractor
(`utils/extractor.ts`) reports one record for each input, select, textarea, button, link
and form, and finds a label for each control.

The project has one module per concern:

- `strings.dfy`, module `JsStrings`: the string operations of the JavaScript runtime the
  code relies on. These are ASCII letter case, `trim` over the ECMAScript white-space set,
  `includes`, `startsWith`, removing one character, and decimal rendering.
- `json.dfy`, module `Json`: parsed JSON values, JavaScript truthiness, property access
  (`None` is `undefined`) and `String(...)` coercion.
- `types.dfy`, module `Types`: the records of `types.ts`, and the JSON a server sends for a
  `WebhookStep` and a `PhaseResponse`.
- `normalizer.dfy`, module `Normalizer`: `processResponse` as a total function, in two
  versions (see Findings).
- `orchestrator.dfy`, module `Orchestrator`: class `Assistant` holds the widget state. It has
  one method per event: mount, restore, persist, survey buttons, `initSession`,
  `requestNextSteps`, `runAutomation` and `resetSession`. Pure outcome functions and a
  step-loop specification go with it, as do the buttons each status offers.
- `content.dfy`, module `Content`: class `ContentScript`, with the step executor, the message
  router, widget creation, and the toggle and close visibility logic. The host page is a map
  from each selector to a mutable `Element` (value, outline, background, event log).
- `extractor.dfy`, module `Extractor`: the per-element record rules, `findLabel`'s fallback
  chain, and `scanDocument`.

Every outside effect is a parameter:

- A webhook call is an `HttpResult`: a thrown failure, or a parsed body.
- The feedback round is a `FeedbackRound`: either the scan reply is lost, or the POST has a
  result.
- The host page's answers to the dispatched steps are a `seq<bool>`. If the sequence runs
  out before the steps do, the reply to that step is lost, and the loop waits in
  `EXECUTING`.
- Storage is the field `stored` in the widget and `storedVisible` in the content script.
- The 300 ms hide timers and the 1000 ms highlight revert are explicit later calls:
  `FireHideTimer` and `RevertHighlight`.
- Session ids and scan data are arguments.

Some behaviours of the code worth knowing, all modelled as the code has them:

- Submitting the survey validates nothing (App.tsx:358 calls `initSession` directly).
- `currentStepIndex` is not reset when a new step list arrives. Only the step loop and the
  restore write it.
- A reset clears storage, sets IDLE and takes a fresh session id. It keeps the step list,
  the phase, the answers and the cursor.
- The document-type buttons store their labels `Căn cước 12 số` and `CMND 09 số`
  (App.tsx:299-300), not the codes `CCCD` and `CMND` that `types.ts:88` declares, and the
  initial value `CCCD` (App.tsx:46) is neither label. `documentType` is therefore a string.
- The error messages are the code's Vietnamese strings.
- `createWidget` checks only for a container in the page, while the rest of the script
  tests its own `widgetIframe`. When the extension re-injects the script after it lost its
  context (background.js:19-28), the page may still hold the earlier container. The new
  instance then never gets a widget: the visible flag still flips and is stored, showing or
  hiding throws on the null widget, and every frame message is ignored (content.js:140).

The orchestrator runs on the corrected normaliser of the first finding below, not on the
App.tsx:117 rule as written; the two can differ only on a reply whose working object carries a
string `action` and no truthy `actions` (`Normalizer.CorrectionIsConservative`;
`Normalizer.CorrectionDiffersExactly` gives the exact condition), and
`Orchestrator.BareStepReplyOutcomes` states the difference for a bare step object.

## Model

| member | source | states |
|---|---|---|
| JsStrings.RemoveCharAppend | utils/extractor.ts:32 | removing a character distributes over concatenation, so the kept characters keep their order |
| JsStrings.RemoveCharSingle | utils/extractor.ts:32 | one character is kept exactly when it is not the removed one |
| JsStrings.Trim | utils/extractor.ts:32 | the result is an infix of the input, everything cut away is ECMAScript white space, and the result neither starts nor ends with white space |
| JsStrings.Contains | utils/extractor.ts:138 | `includes` holds exactly when the pattern occurs at some index |
| JsStrings.LowerOfUpper | content.js:181 | lower-casing after upper-casing equals lower-casing |
| JsStrings.UpperIdempotent | utils/extractor.ts:165 | upper-casing twice equals upper-casing once |
| Types.StepJson | types.ts:95-103 | a step's JSON is an object whose `selector` and `action` are the step's strings, with only the documented keys |
| Types.StepJsonKeys | types.ts:95-103 | a step's JSON has none of the reply keys (`actions`, `steps`, `current_phase`, `guide_message`, `guide`, `require_confirmation`) |
| Types.PhaseResponseJson | types.ts:105-111 | a phase reply's JSON carries its actions, phase, guide and confirmation under the documented keys, and no `guide` |
| Normalizer.KeepSteps | App.tsx:124 | the filter keeps exactly the entries with a truthy `selector`, each an object, and never lengthens the list |
| Normalizer.KeepStepsAppend | App.tsx:124 | the filter distributes over concatenation, so relative order is kept |
| Normalizer.KeepStepsAll | App.tsx:124 | a list of step objects passes the filter unchanged |
| Normalizer.NoSelectorNoSteps | App.tsx:124 | candidates without selectors yield no steps |
| Normalizer.GuideOf | App.tsx:114 | the guide is always truthy |
| Normalizer.CurrentPhaseOf | App.tsx:113 | a phase, when present, is truthy |
| Normalizer.Assemble | App.tsx:111-124 | every step is an object with a truthy selector, the guide is truthy, and a non-object root gives the default phase and no steps |
| Normalizer.ProcessResponseAsWritten | App.tsx:101-134 | the line-117 rule as written returns only selectable step objects |
| Normalizer.ProcessResponse | App.tsx:101-134 | the corrected normaliser returns only selectable step objects and a truthy guide |
| Normalizer.PhaseFields | App.tsx:113-115 | guide is `guide_message`, else `guide`, else the default; phase is a truthy `current_phase`, else null; confirmation only for literal `true` |
| Normalizer.FirstElementWins | App.tsx:102-103 | a top-level array is read through its first element only, under both rules; when that element is not itself a non-empty array the reply reads as the element alone |
| Normalizer.UnrecognisedShape | App.tsx:106-111 | a non-object working value, or an empty array, yields the default phase and no steps |
| Normalizer.CandidateSteps | App.tsx:117-121 | an array candidate is filtered as is, a non-array one is wrapped in a singleton, and an empty list falls back to a root with a selector |
| Normalizer.CandidatePrecedence | App.tsx:117 | `actions` wins (even an empty array), then `action`, then `steps`, then an array root, else `[]` |
| Normalizer.AsWrittenDropsSingleStep | App.tsx:117-124 | as written, a bare step object with a string action yields no steps, while the same step under `actions` yields it |
| Normalizer.ShapeTolerance | App.tsx:117-124 | corrected, the bare step, a one-element `actions` and a one-element `steps` all give that one step and the default phase |
| Normalizer.CorrectionDiffersExactly | App.tsx:111-124 | the two rules always give the same phase, and give different steps exactly when the working object is an object with a non-empty string `action`, no truthy `actions`, and either a truthy `steps` with a selectable entry or a missing, falsy or empty-array `steps` with a truthy `selector`; the rule as written then gives no steps |
| Normalizer.CorrectionIsConservative | App.tsx:117 | the two rules agree unless the working object has a string `action` and no truthy `actions` |
| Normalizer.Encode | types.ts:105-111 | the model's encoder of a normalised reply into the webhook reply shape: `actions`, `guide_message`, `require_confirmation` and `current_phase` carry its steps, guide, confirmation and phase, and there is no `selector` |
| Normalizer.EncodeRoundTrip | App.tsx:101-134 | normalising the canonical JSON of any well-formed reply gives that reply back, under both rules |
| Normalizer.NormalizeIdempotent | App.tsx:101-134 | normalising is idempotent through the canonical form |
| Normalizer.TypedPhaseResponse | App.tsx:101-134 | a typed phase reply with selectors is read back field for field |
| Orchestrator.RestoredStatus | App.tsx:71 | a restored status is never EXECUTING: EXECUTING becomes ACTION_DONE and every other status is kept |
| Orchestrator.InitOutcome | App.tsx:141-166 | READY_EXECUTE exactly for a reply with steps, ERROR with the connection message exactly on failure, else ACTION_DONE; a reply is always applied |
| Orchestrator.FeedbackOutcome | App.tsx:196-215 | READY_EXECUTE exactly for a reply with steps; SUCCESS exactly when there are no steps and the raw reply's `status` is `finished`; the no-info message otherwise for a non-null reply; the scan-failure message on failure or a null reply |
| Orchestrator.BareStepReplyOutcomes | App.tsx:117-124 | on a bare step object the code as written stores no steps, while the corrected outcome of either call is READY_EXECUTE with that one step |
| Orchestrator.FinishedReadOnRawReply | App.tsx:199-205 | completion is read on the raw reply: `finished` inside a one-element array is not seen |
| Orchestrator.Attempted | App.tsx:224-238 | never more dispatches than steps, and at least one when there are steps |
| Orchestrator.AttemptedSplit | App.tsx:224-233 | a prefix of successes adds one dispatch each and does not change whether the loop stalls |
| Orchestrator.DispatchOnlyAfterSuccess | App.tsx:228-233 | step i+1 is dispatched only after step i answered true |
| Orchestrator.FirstFailureStops | App.tsx:233 | a first failure at index k stops the loop after k+1 dispatches |
| Orchestrator.AllSucceed | App.tsx:224-238 | if every answer is true, every step is dispatched and the loop ends |
| Orchestrator.StallsIff | App.tsx:228-231 | the loop waits forever exactly when the answers run out before a failure or the end, after one more dispatch than there were answers |
| Orchestrator.SecondOfThreeFails | App.tsx:224-246 | of three steps whose second fails, two are dispatched and the status is ACTION_DONE |
| Orchestrator.ChoicesCommute | App.tsx:300-344 | choices from different groups commute |
| Orchestrator.LastChoiceWins | App.tsx:300-344 | a later choice in the same group overrides an earlier one |
| Orchestrator.DefaultsNotOnScreen | App.tsx:46-49 | the initial document type and delivery method are values no button offers, and a pressed document button never stores a declared code |
| Orchestrator.WaitingOffersOnlyReset | App.tsx:286-430 | exactly the statuses INIT_SENDING, SCANNING and EXECUTING offer no button except the settings reset |
| Orchestrator.RestoreAfterLostReplies | App.tsx:71 | a reload frees a run that lost a step reply, but a lost scan reply still offers only the reset |
| Orchestrator.Assistant.constructor | App.tsx:29-58 | mounting starts in IDLE with the default answers, phase and cursor, a fresh session id, and storage as found |
| Orchestrator.Assistant.Persist | App.tsx:88-94 | every status but IDLE writes the full snapshot; IDLE leaves storage as it was |
| Orchestrator.Assistant.Restore | App.tsx:67-79 | a stored snapshot is loaded with EXECUTING mapped to ACTION_DONE and a missing cursor as 0, and then persisted; without one nothing changes |
| Orchestrator.Assistant.OpenSurvey | App.tsx:290 | the start button (and "back to survey", line 430) sets SURVEY and persists, nothing else changes |
| Orchestrator.Assistant.Choose | App.tsx:300-344 | a survey choice replaces one answer (a document choice stores the button's label string) and is persisted, with no validation |
| Orchestrator.Assistant.ApplyResponse | App.tsx:126-133 | phase and steps are replaced together, and the stored list is the one returned |
| Orchestrator.Assistant.InitSession | App.tsx:141-166 | the state ends as `InitOutcome` says, the cursor is untouched, and the result is persisted |
| Orchestrator.Assistant.RequestNextSteps | App.tsx:174-216 | a lost scan leaves SCANNING; otherwise the state ends as `FeedbackOutcome` says; the cursor is untouched; persisted |
| Orchestrator.Assistant.RunAutomation | App.tsx:222-246 | exactly the first `Attempted` steps are sent in order; the cursor ends at the last one sent; the status is WAITING_CONFIRM or ACTION_DONE by the confirmation flag, or EXECUTING on a stall |
| Orchestrator.Assistant.ResetSession | App.tsx:248-252 | storage cleared, IDLE, the fresh session id; steps, phase, answers and cursor kept |
| Content.ActionKind | content.js:181 | a missing or falsy action is the empty kind, a string is lower-cased so that the kind has no upper-case letter, and any other truthy value throws |
| Content.PlanIgnoresCase | content.js:181 | the letter case of the action kind does not change what the step does |
| Content.UnknownKindDoesNothing | content.js:181-190 | a missing or unknown kind fires no events |
| Content.CloseTimerHidesReopenedWidget | content.js:161 | as written, the close timer hides a widget that was reopened in the meantime |
| Content.GuardAgreesWhenHidden | content.js:133 | the guarded timers agree with the code whenever the widget stayed hidden, and the toggle timer always does |
| Content.ContentScript.constructor | content.js:12-14 | the script loads with no widget, invisible, with the stored flag as found, and with a container already in the page or not |
| Content.ContentScript.CreateWidget | content.js:48-91 | a call that finds a container changes nothing, so a container left by an earlier script instance leaves the widget null; at most one container is ever created; a new one starts hidden |
| Content.ContentScript.RestoreVisibility | content.js:29-45 | a stored truthy flag sets the visible flag and creates and shows the widget, or, with a stale container, leaves it null and hidden; otherwise nothing changes |
| Content.ContentScript.Toggle | content.js:119-135 | the flag is negated and persisted; showing displays the widget at once, hiding shrinks it and starts the hide timer; with a stale container nothing else happens and no timer starts |
| Content.StaleContainerScenario | content.js:48-49 | a script loaded into a page that still holds an earlier container never gets a widget: restore and toggle only flip the flag, and frame messages are ignored |
| Content.ContentScript.FireHideTimerAsWritten | content.js:161 | as written, the toggle timer is guarded and the close timer always hides |
| Content.CloseThenReopenAsWritten | content.js:156-161 | close, then toggle open, then the close timer: flagged visible and stored visible, yet not displayed, breaking the widget invariant |
| Content.ContentScript.FireHideTimer | content.js:133 | a hide timer hides the widget only if it is still flagged invisible, so a flagged-visible widget stays displayed |
| Content.ContentScript.ExecuteStep | content.js:165-200 | no match returns false and changes nothing; a match is highlighted, gets the plan's value and events, returns true with its saved style pending, or false if the kind throws; no other element changes |
| Content.ContentScript.RevertHighlight | content.js:193-196 | the revert restores the saved outline and background and touches nothing else |
| Content.ContentScript.HandleWindowMessage | content.js:139-163 | with no widget nothing happens; a scan request gets one scan result; a step request runs the step and gets one step result carrying its outcome; a close request hides, persists false and starts the close timer |
| Extractor.AttrOrNull | utils/extractor.ts:17-26 | an attribute is reported exactly when present and non-empty |
| Extractor.AttributesNeverEmpty | utils/extractor.ts:17-26 | no reported base attribute is the empty string |
| Extractor.AttributesIgnoreOtherKeys | utils/extractor.ts:17-26 | only the six named attributes are read: setting any other leaves the report unchanged |
| Extractor.FindLabel | utils/extractor.ts:28-49 | a label is never empty, and a container label decides, with every `*` removed and white space trimmed |
| Extractor.LabelSources | utils/extractor.ts:28-49 | eight sources in order, and the last (null) always applies |
| Extractor.FirstApplicableAt | utils/extractor.ts:28-49 | the first source that applies decides |
| Extractor.FindLabelIsFirstApplicable | utils/extractor.ts:28-49 | `findLabel` equals the first applicable source of the ordered list: container, sibling, `label[for]` for an element with an id, wrapping label, aria-label, placeholder, title, null |
| Extractor.EmptyContainerLabelShadows | utils/extractor.ts:30-33 | a container label of only `*` and spaces gives null, even when later sources exist |
| Extractor.ReportedValue | utils/extractor.ts:77 | a password's value is always the mask; a reported value is never the empty string |
| Extractor.LinkTypeOf | utils/extractor.ts:155 | never `javascript`; `trigger` exactly for a truthy onclick, `href == '#'`, or an href starting with `javascript:` or containing `choose_login` |
| Extractor.FormMethod | utils/extractor.ts:165 | the method is non-empty with no lower-case letter: the upper-cased attribute, or `GET` when missing or empty |
| Extractor.FormMethodCanonical | utils/extractor.ts:165 | the reported method reads back to itself |
| Extractor.IsDropdown | utils/extractor.ts:138 | exactly when the lower-cased class name contains `dropdown` |
| Extractor.DropdownIgnoresCase | utils/extractor.ts:138 | upper-casing the class name does not change the result |
| Extractor.InputRecord | utils/extractor.ts:73-86 | tag `input`, a non-empty type, a masked password, required from the property or the attribute, and the found label |
| Extractor.OptionRecord | utils/extractor.ts:91-96 | an option's value is never reported as the empty string; its text is kept |
| Extractor.SelectRecord | utils/extractor.ts:89-107 | `optionsCount` equals the number of options, each option converted in order, and the raw `onchange` |
| Extractor.TextareaRecord | utils/extractor.ts:110-123 | the value is kept as is, even when empty, while the placeholder and the label are never the empty string; rows and cols are raw attributes |
| Extractor.ButtonRecord | utils/extractor.ts:126-139 | the tag has no upper-case letter and the tag name's length; the text is an input's value, else text with no white space at either end; disabled from the property or `aria-disabled`; the dropdown rule on the class name |
| Extractor.LinkRecord | utils/extractor.ts:142-157 | tag `a`; the href is never the empty string; the link type is never `javascript`; the text, when present, is non-empty with no white space at either end |
| Extractor.FormRecord | utils/extractor.ts:161-174 | the method is non-empty with no lower-case letter; id, name and action are never the empty string; the given element counts |
| Extractor.Collect | utils/extractor.ts:71-87 | one record per element, in order |
| Extractor.ScanDocument | utils/extractor.ts:63-187 | each of the six lists has one record per element the query returned, in order; every password input is reported with the mask; the url and time stamp are the given ones; no answers |
| Extractor.ScanMasksPasswords | utils/extractor.ts:71-87 | in the input list of a scan every password input is masked, and every other reported value is a non-password input's own value |

## Left out

- JSX rendering, styling and icons (App.tsx:254-447) are not modelled. Only which buttons each status renders is modelled, as `Orchestrator.Offered`.
- `background.js`, `index.tsx`, `tailwind.config.js` and `vite.config.ts` are not modelled. They are browser-action plumbing and build configuration.
- Transport is not modelled. `fetch`, `res.json()`, `postMessage`, `chrome.storage` and `localStorage` become parameters and fields. The request bodies sent to the webhook are not modelled.
- The webhook URL setting (App.tsx:82-83, 272) is not modelled. It only chooses where requests go.
- Concurrency is not modelled. Each handler runs to completion. An interleaving such as a toggle during a step's 600 ms wait, a second message while one is in flight, or the restore callback racing the first toggle is out of scope.
- Timers are not modelled as time. The inter-step delay (1200 ms), the 600 ms scroll wait and the animation timings are dropped. The 300 ms hides and the 1000 ms revert are explicit later calls.
- Random session ids and `new Date().toISOString()` are arguments.
- Widget dragging and the stored widget position (content.js:35-39, 93-116) are not modelled. They are mouse events and pixels.
- `scanFrame` and its own `findLabel` (content.js:203-226) are not modelled. What the scan returns is a parameter.
- `isLoginElement` (utils/extractor.ts:51-61) is a regular expression. Whether it matches is the field `matchesLoginKeywords` of a page button.
- Extractor.FindLabel: the `label[for="<id>"]` query of utils/extractor.ts:41 is built from the raw id. When no container or sibling label applies and the id makes the selector invalid, for example an id containing `"`, `querySelector` throws a SyntaxError and the whole scan fails. The model always returns a label or null.
- Extractor.ButtonRecord: for an SVG element matched by the button query (such as `<svg role="button">`), `el.className` is an `SVGAnimatedString`, not a string, so `className.toLowerCase()` on utils/extractor.ts:138 throws a TypeError and the whole scan fails. The model reads the `class` attribute as a string and returns a record.
- Extractor.ScanDocument: always returns the six lists. The scan failures named in the two lines above are not modelled.
- DOM selector matching is not modelled. Which elements each query returns is given. A step selector that is not a string, or is not a key of the page map, matches nothing. This includes a selector that is syntactically invalid: `querySelector` throws on it and the step also returns false with nothing changed.
- The script's behaviour without an extension API object (content.js:6-10, 29, 118) is not modelled. The API is assumed present.
- Content.ContentScript.ExecuteStep: an exception other than a non-string action kind that reaches the `catch` of content.js:199 is not modelled. Examples are setting a non-empty `value` on an `<input type="file">`, which throws at content.js:185 before any event fires, and `click()` on an SVG element, which has no `click` method. The model returns true and writes the value or logs the click there. An exception thrown by a page's own event listener does not reach `executeStep` and is correctly absent.
- Content.ContentScript.HandleWindowMessage: a `null` message makes reading `event.data.type` throw. The model treats that as ignoring the message, which has the same effect.
- JsStrings.Lower: case mapping covers ASCII letters only.
- Json.ToJsString: JSON numbers are unbounded integers. Fractional numbers are not modelled. Integers from 10^21 up are rendered as full digit strings, where JavaScript writes exponent form such as `1e+21`. Integers above 2^53 keep their exact value, where JavaScript rounds them to the nearest double.
- Orchestrator.Assistant.RunAutomation: the snapshot written after each cursor move is not modelled separately. The final write, or the write at a stall, replaces it.
- Orchestrator.Assistant.constructor: requires that the stored snapshot is one this code writes, with a step list in READY_EXECUTE and a cursor inside the list in EXECUTING. Storage written by anything else is not modelled.
- Orchestrator.InitOutcome: built on the corrected `Normalizer.ProcessResponse`; on a working object whose `action` is a non-empty string, with no truthy `actions`, and either a truthy `steps` that yields a selectable entry or a missing, falsy or empty-array `steps` together with a truthy `selector` (`Normalizer.CorrectionMatters`) (a bare step object, or `{"action": "click", "steps": [{"selector": "#a"}]}`) it gives READY_EXECUTE where App.tsx:155-161 gives ACTION_DONE with no steps.
- Orchestrator.FeedbackOutcome: built on the corrected `Normalizer.ProcessResponse`; on a working object whose `action` is a non-empty string, with no truthy `actions`, and either a truthy `steps` that yields a selectable entry or a missing, falsy or empty-array `steps` together with a truthy `selector` (`Normalizer.CorrectionMatters`) it gives READY_EXECUTE where App.tsx:199-211 gives the no-information error.
- Orchestrator.Assistant.ApplyResponse: stores the corrected `Normalizer.ProcessResponse`; on a working object whose `action` is a non-empty string, with no truthy `actions`, and either a truthy `steps` that yields a selectable entry or a missing, falsy or empty-array `steps` together with a truthy `selector` (`Normalizer.CorrectionMatters`) it stores those steps where App.tsx:117-133 stores none.
- Orchestrator.Assistant.InitSession: ends as `Orchestrator.InitOutcome` says, so it differs from App.tsx:141-166 on a working object whose `action` is a non-empty string, with no truthy `actions`, and either a truthy `steps` that yields a selectable entry or a missing, falsy or empty-array `steps` together with a truthy `selector` (`Normalizer.CorrectionMatters`) in the same way.
- Orchestrator.Assistant.RequestNextSteps: ends as `Orchestrator.FeedbackOutcome` says, so it differs from App.tsx:174-216 on a working object whose `action` is a non-empty string, with no truthy `actions`, and either a truthy `steps` that yields a selectable entry or a missing, falsy or empty-array `steps` together with a truthy `selector` (`Normalizer.CorrectionMatters`) in the same way.
- Orchestrator.Assistant.Restore: the snapshot is restored field by field as stored. Type checks of the stored JSON are not modelled.

## Findings

| source | as written | input that shows it | evidently intended | confidence | as-written member | corrected member |
|---|---|---|---|---|---|---|
| App.tsx:117 | the first truthy of `actions`, `action` and `steps` takes a bare step object's string `action` (`"click"`) as the step list. It is wrapped to `["click"]`, so the selector fallback of line 121 never fires, and the filter drops the string. | `{"selector": "#a", "action": "click"}` yields no steps | a bare step object is one step, as the fallback on line 121 intends | high, not executed | Normalizer.AsWrittenDropsSingleStep, Orchestrator.BareStepReplyOutcomes | Normalizer.ShapeTolerance |
| content.js:161 | the close message's hide timer sets `display: none` without checking `isVisible` | `DVC_CLOSE_WIDGET` then `TOGGLE_WIDGET` within 300 ms: the widget is flagged visible but not displayed | the same `if (!isVisible)` guard as the toggle's timer on line 133 | medium, not executed | Content.CloseTimerHidesReopenedWidget, Content.CloseThenReopenAsWritten | Content.ContentScript.FireHideTimer |
