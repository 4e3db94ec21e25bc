# HeroGeneratorSection controller, modelled in Dafny

The web application takes a natural-language description of a UI component and sends it
to two code-generation endpoints (gemini and groq) in parallel. It shows each returned
snippet as a card that can switch between a live preview and the raw code, be copied to
the clipboard and be downloaded. This project models the client-side controller from
`src/components/sections/hero-generator-section.tsx`. The model has explicit state and
transitions. Network replies, clipboard outcomes, timer firings and clock readings are
inputs to it.

Modules, in dependency order:

- `Wrappers` (`wrappers.dfy`): `Option`.
- `JsStrings` (`js_strings.dfy`): ASCII models of the JavaScript built-ins the section
  uses. These are `trim`, `indexOf`, `replace` with a string pattern, the `\s` and `\w`
  classes, and the decimal text of a non-negative integer. Each comes with its partner:
  `trim` is empty exactly for blank strings, `replace` rewrites only the first occurrence,
  and decimal text reads back to the same number. They are modelled only as far as the
  section uses them. `indexOf` is not clamped for a start position past the end, since the
  section always searches from 0. `replace` does not expand `$` patterns in the
  replacement, since the section's replacement `"function"` has none.
- `Results` (`results.dfy`): the provider outcomes, `CodeResult`, and the `try` block of
  `handleGenerate`. `CollectResults` builds the list step by step, the way the source
  does. It is proved equal to the reference definition `Aggregate`, whose contract gives
  the list's length, order, contents and id distinctness.
- `Preview` (`preview.dfy`): the two text operations of `createPreviewHTML`. One rewrites
  the first `export default function` into `function`. The other picks the component name
  from the first match of `function\s+(\w+)` and falls back to `Component`. The match is
  also defined declaratively, and the scanner is proved to return its leftmost capture.
- `Presenter` (`presenter.dfy`): the template-shortcut table, the per-card view map
  (`activeTab`), and the download file name.
- `Controller` (`controller.dfy`): class `HeroGenerator`. It has one field per `useState`
  slot and one method per handler. Its invariant `Valid()` says that no result is shown
  while a cycle is loading, and that the shown list is well formed: at most two entries,
  gemini before groq, distinct ids. Two client methods replay whole sessions.

Two behaviours of the code are easy to misread:

- Copy expiry. The timer set at line 102 clears `copiedId` without checking which id it
  was set for, and an earlier timer is never cancelled. So a second copy within two
  seconds is cleared when the FIRST timer fires, and the window is not rescheduled.
  `Controller.CopyTwiceSession` shows this.
- `activeTab` is never reset when a new cycle replaces the results. New ids carry a new
  timestamp, so the stale keys remain in the map but are not looked up again.

## Model

| member | source | states |
|---|---|---|
| `JsStrings.Trim` | src/components/sections/hero-generator-section.tsx:44 | the result is no longer than the input and neither starts nor ends with white space; `TrimEmptyIffBlank` states when it is empty |
| `JsStrings.TrimStart` | src/components/sections/hero-generator-section.tsx:44 | the result is a suffix of the input, everything dropped is white space, and it does not start with white space |
| `JsStrings.TrimEnd` | src/components/sections/hero-generator-section.tsx:44 | the result is a prefix of the input, everything dropped is white space, and it does not end with white space |
| `JsStrings.TrimEmptyIffBlank` | src/components/sections/hero-generator-section.tsx:44 | `prompt.trim()` is empty (falsy) exactly when every character is white space, in both directions |
| `JsStrings.IndexFrom` | src/components/sections/hero-generator-section.tsx:158 | the position found holds an occurrence and no earlier position from `from` on does; `None` means there is no occurrence at or after `from` |
| `JsStrings.ReplaceFirst` | src/components/sections/hero-generator-section.tsx:158 | with no occurrence the text is unchanged; otherwise the leftmost occurrence is replaced and the text before and after it is kept |
| `JsStrings.LaterOccurrencesSurvive` | src/components/sections/hero-generator-section.tsx:158 | an occurrence after the replaced one is still present in the result, shifted by the length difference |
| `JsStrings.Decimal` | src/components/sections/hero-generator-section.tsx:71 | the decimal text of a number is non-empty, made of digits only, and has no leading zero unless it is the single digit `0` |
| `JsStrings.DecimalRoundTrip` | src/components/sections/hero-generator-section.tsx:120 | reading the decimal text back gives the same number |
| `JsStrings.DecimalCanonical` | src/components/sections/hero-generator-section.tsx:71 | every digit string without a leading zero (or the single `0`) is the decimal text of its own value: decimal text is exactly the canonical digit strings |
| `JsStrings.DecimalInjective` | src/components/sections/hero-generator-section.tsx:120 | different numbers have different decimal texts |
| `Results.IdFor` | src/components/sections/hero-generator-section.tsx:71-83 | the id is the provider name, a dash, and digits that read back as the timestamp |
| `Results.IdsOfProvidersDiffer` | src/components/sections/hero-generator-section.tsx:71-83 | a `gemini-` id never equals a `groq-` id, whatever the two timestamps |
| `Results.Aggregate` | src/components/sections/hero-generator-section.tsx:64-90 | the cycle aborts exactly when a body cannot be read; otherwise the list has one entry per provider that was fulfilled and reported success, is in call order (gemini before groq, at most two), has distinct ids, and each entry carries its provider's code verbatim, its provider tag and the id `<provider>-<timestamp>` |
| `Results.Shown` | src/components/sections/hero-generator-section.tsx:47-92 | the shown list is empty exactly when the cycle aborted or assembled nothing; otherwise it is the assembled list |
| `Results.ShownCounts` | src/components/sections/hero-generator-section.tsx:64-92 | both succeed: two entries, gemini then groq; neither succeeds: empty; a body that throws: empty, even if gemini's entry was already pushed; never more than two |
| `Results.CollectResults` | src/components/sections/hero-generator-section.tsx:64-92 | building `newResults` push by push, with an early exit for a throwing `.json()`, yields exactly `Aggregate` |
| `Preview.RewriteDefaultExport` | src/components/sections/hero-generator-section.tsx:158 | code without `export default function` is unchanged; otherwise the first occurrence becomes `function`, the text before it is unchanged, the text after it is unchanged, and the length shrinks by 15 |
| `Preview.LaterExportsSurvive` | src/components/sections/hero-generator-section.tsx:158 | a second, non-overlapping `export default function` is left in place |
| `Preview.SpacesFrom` | src/components/sections/hero-generator-section.tsx:161 | the count is the maximal run of `\s` characters from the given position |
| `Preview.WordFrom` | src/components/sections/hero-generator-section.tsx:161 | the count is the maximal run of `\w` characters from the given position |
| `Preview.SpacesFromExact` | src/components/sections/hero-generator-section.tsx:161 | any maximal white-space run has exactly the length `SpacesFrom` returns |
| `Preview.WordFromExact` | src/components/sections/hero-generator-section.tsx:161 | any maximal word run has exactly the length `WordFrom` returns |
| `Preview.MatchAt` | src/components/sections/hero-generator-section.tsx:161 | a capture starts with `function` at the position and is a non-empty run of word characters; `MatchAtSound` and `MatchAtComplete` tie it to the pattern |
| `Preview.MatchAtSound` | src/components/sections/hero-generator-section.tsx:161 | what the scanner captures at a position is a match of `function\s+(\w+)` there |
| `Preview.MatchAtComplete` | src/components/sections/hero-generator-section.tsx:161 | every match of `function\s+(\w+)` at a position is what the scanner captures there |
| `Preview.FirstMatchFrom` | src/components/sections/hero-generator-section.tsx:161 | the position found is the leftmost one at or after `from` where the pattern matches; `None` means no match at or after `from` |
| `Preview.ComponentName` | src/components/sections/hero-generator-section.tsx:161 | the name is non-empty and made of word characters only; `ComponentNameSpec` states which name it is |
| `Preview.ComponentNameSpec` | src/components/sections/hero-generator-section.tsx:161 | the name is the capture group of the leftmost match in the original code, and `Component` when the pattern matches nowhere |
| `Presenter.TemplateFor` | src/components/sections/hero-generator-section.tsx:33-41 | each of the four shortcut names gives its fixed description; any other string is returned unchanged |
| `Presenter.KnownTemplateNotBlank` | src/components/sections/hero-generator-section.tsx:34-44 | a shortcut's description passes the blank-prompt guard of `handleGenerate` |
| `Presenter.TemplateForIdempotent` | src/components/sections/hero-generator-section.tsx:34-40 | no shortcut description is itself a shortcut name, so looking up a prompt that came from a shortcut gives it back unchanged |
| `Presenter.TabOf` | src/components/sections/hero-generator-section.tsx:253 | a card with no entry shows its preview, and it shows code exactly when its entry is `Code`; `WithTab` and `ToggleRoundTrip` relate it to the clicks |
| `Presenter.WithTab` | src/components/sections/hero-generator-section.tsx:280-291 | the clicked card reads the new view, the key set grows by that card only, and every other card's entry and shown view are unchanged |
| `Presenter.WithTabIdempotent` | src/components/sections/hero-generator-section.tsx:280-291 | setting the same view twice gives the same map as setting it once |
| `Presenter.ToggleRoundTrip` | src/components/sections/hero-generator-section.tsx:253-291 | switching a card that shows its preview to code and back leaves every card showing what it showed before |
| `Presenter.DownloadName` | src/components/sections/hero-generator-section.tsx:120 | the name starts with `component-v` and ends with `.tsx`; the text in between is the decimal text of `index + 1`, without a leading zero |
| `Presenter.DownloadNameInjective` | src/components/sections/hero-generator-section.tsx:120 | cards at different positions download under different names |
| `Presenter.FirstDownloadName` | src/components/sections/hero-generator-section.tsx:120 | the first card (index 0) downloads as `component-v1.tsx`: the position is 1-based |
| `Controller.HeroGenerator.constructor` | src/components/sections/hero-generator-section.tsx:27-31 | empty prompt, not loading, no results, nothing copied, empty view map; the invariant holds |
| `Controller.HeroGenerator.EditPrompt` | src/components/sections/hero-generator-section.tsx:181 | the prompt becomes the typed text and nothing else changes |
| `Controller.HeroGenerator.TemplateClick` | src/components/sections/hero-generator-section.tsx:33-41 | the prompt becomes `TemplateFor(template)` and nothing else changes |
| `Controller.HeroGenerator.BeginGenerate` | src/components/sections/hero-generator-section.tsx:43-47 | a blank prompt changes no state; otherwise `loading` becomes true and `results` becomes empty; prompt, copy marker and view map are untouched |
| `Controller.HeroGenerator.FinishGenerate` | src/components/sections/hero-generator-section.tsx:49-95 | `loading` ends false; `results` is the assembled list, or stays empty when a body throws |
| `Controller.HeroGenerator.Generate` | src/components/sections/hero-generator-section.tsx:43-96 | a whole cycle: a blank prompt changes nothing; otherwise the cycle ends with `loading` false and the assembled (or, after an exception, empty) list shown |
| `Controller.HeroGenerator.CurrentTab` | src/components/sections/hero-generator-section.tsx:253 | a card with no entry in `activeTab` shows its preview, and it shows code exactly when its entry is `Code` |
| `Controller.HeroGenerator.SelectTab` | src/components/sections/hero-generator-section.tsx:280-291 | `activeTab` becomes `WithTab` of the old map; nothing else changes |
| `Controller.HeroGenerator.CopyCode` | src/components/sections/hero-generator-section.tsx:98-106 | the text handed to the clipboard is the card's code exactly; a successful write sets `copiedId` to the card's id; a failed one leaves it unchanged |
| `Controller.HeroGenerator.CopyExpired` | src/components/sections/hero-generator-section.tsx:102 | the expiry sets `copiedId` to none unconditionally |
| `Controller.HeroGenerator.DownloadCode` | src/components/sections/hero-generator-section.tsx:115-120 | the file is named `DownloadName(index)` and its content is the card's code exactly |
| `Controller.HeroSession` | src/components/sections/hero-generator-section.tsx:33-125 | Hero shortcut, both providers succeed: two cards, gemini's then groq's, with distinct ids and verbatim code; the first card switched to code shows `Code`; its download is named `component-v1.tsx` with gemini's code as content |
| `Controller.CopyTwiceSession` | src/components/sections/hero-generator-section.tsx:98-106 | after copying card 1 and then card 2, the marker is card 2's id; when the first copy's timer fires, it is cleared |

## Left out

- Network calls (`fetch`, lines 51-62), `Promise.allSettled` and the server routes `src/app/api/generate/gemini/route.ts` and `src/app/api/generate/groq/route.ts`. These are vendor-SDK wrappers. Each settled call is an input value: `Rejected`, or `Fulfilled` with a body that cannot be parsed, or with `success` and `code`.
- Overlapping cycles and a late reply overwriting a newer list. The prompt box and the shortcuts are disabled while loading. `FinishGenerate` requires a cycle in flight.
- `Date.now()`. Each of its two readings is a parameter. A negative clock is not modelled, since timestamps are `nat`.
- `navigator.clipboard.writeText`. It is a success flag.
- Logging with `console.error`: the caught exception of a generation cycle (line 92) and a failed clipboard write (line 104). Neither changes any state.
- `setTimeout` and its 2000 ms delay. The timer firing is the explicit event `CopyExpired`. Time itself is not modelled.
- The Blob, object URL and anchor element manipulation in `handleDownloadCode` (lines 116-124). The model keeps only the file name and the content.
- The HTML template around the two string operations in `createPreviewHTML`, and the `eval` and iframe rendering. These are browser execution.
- `handleKeyDown` (lines 108-113). It only calls `handleGenerate` on Ctrl/Cmd+Enter, which `Generate` models.
- All JSX markup, styling and icons, `src/components/sections/navigation-header.tsx` and `src/app/page.tsx`. These are presentation.
- Unicode white space for `trim` and `\s`, such as U+00A0 or U+FEFF, and Unicode semantics. `IsSpace` covers the ASCII space, tab, LF, VT, FF and CR. `IsWord` is exactly `\w`.
- TemplateFor: does not model JavaScript object-prototype lookups (`templates["constructor"]` and similar names, which give a truthy inherited value). The only callers pass the four shortcut names.
