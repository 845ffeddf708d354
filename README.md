# ColorCraft generation gate, in Dafny

This project models the gate in front of ColorCraft's coloring-page generator. Each browser
gets three free generations per calendar day (UTC). A shared passcode lifts that limit while
the page stays mounted: the unlock is React state, not stored, so a reload or leaving the page
starts locked again. The model covers three pieces of the web client:

- **The quota hook** (`useRateLimit`), module `RateLimit`. One storage slot holds a
  `DailyRecord {date, count}`. The hook reads it lazily: a record of another day, a missing
  value or unreadable text all read as a fresh `{today, 0}`. `recordGeneration` writes back
  today's count plus one. The hook caches `remaining = max(0, 3 - count)` and keeps a flag
  `unlocked` that only the exact passcode `"1122"` sets and that lasts while the page is mounted. `canGenerate` is
  `unlocked || remaining > 0`. The class `RateLimiter` holds the slot and the two pieces of
  React state. The functions `GetRecord`, `Remaining` and `Charge` are the specification its
  methods are proved against.
- **The home page's handlers**, module `Home`. `handleGenerate` either runs `doGenerate` at
  once or parks the description in `pendingDescription` and opens the passcode dialog.
  `handlePasscodeVerify` replays the parked request after a successful unlock, and
  `handlePasscodeClose` drops it. `doGenerate` charges the quota before it calls the
  generation service. The class `HomePage` logs the outside effects it triggers (charge,
  generate, add to gallery) in order. Its invariant is that every generation was charged
  exactly once, immediately before it.
- **The passcode dialog** (`PasscodeModal`), module `Passcode`. It trims its input before
  handing it to the verifier. On rejection it shows an error and clears the input. Editing
  the input clears the error. The Unlock button is disabled while the trimmed input is empty.
  `Home.SubmitPasscode` wires the dialog to the page's handlers the way the page renders it.

The module `JsText` gives ECMAScript's `String.prototype.trim` a meaning. It skips WhiteSpace
and LineTerminator code points at both ends (sections 12.2 and 12.3 of ECMA-262), scanning by
index.

Outside effects are parameters. The clock is `today: string` (the UTC date `YYYY-MM-DD` of
`useRateLimit.ts:15`). `localStorage` is the value `Slot = Absent | Corrupt | Present(record)`.
Whether the generation service returned an image is `generated: bool`.

Three behaviours of the code are worth keeping in view:

- `verifyPasscode` compares its argument with `"1122"` exactly, on every call
  (`useRateLimit.ts:55-61`). It neither trims nor answers true once unlocked. The dialog does
  the trimming (`PasscodeModal.tsx:17`). `Home.DialogTrimsPadding` shows that `" 1122 "`
  unlocks through the dialog although `VerifyPasscode(" 1122 ")` answers `false`.
- `remaining` is a cache, set on mount and by `recordGeneration` only
  (`useRateLimit.ts:38-53`); it starts at 3 on the first render. Across midnight the cache
  keeps yesterday's value, so a page left open with the quota used up stays locked until it
  is reloaded. `RateLimit.StaleCacheScenario` exhibits this. Every contract about `remaining`
  is stated through `Synced(today)`, which holds after `Mount(today)` and
  `RecordGeneration(today)`.
- `handlePasscodeVerify` replays only a truthy `pendingDescription`, so an empty pending
  description is not replayed (`page.tsx:56`). `Home.HasPending` models that test.

`RateLimit.LimitThenUnlockScenario` and `Home.ParkedRequestScenario` are client methods that
check the day's flow against the contracts alone. Three generations use the quota up, and a
wrong passcode changes nothing. The right passcode, padded with spaces in the dialog, replays
the parked request once and charges it.

## Model

| member | source | states |
|---|---|---|
| `JsText.Trim` | src/components/PasscodeModal.tsx:17 | the text handed to the verifier has no white space at either end, and it is empty exactly when the whole input is white space |
| `JsText.TrimOfUnpadded` | src/components/PasscodeModal.tsx:17 | an input without white space at its ends is handed on unchanged |
| `JsText.TrimOfPadded` | src/components/PasscodeModal.tsx:17 | any white space around an input is removed and the input itself is kept |
| `RateLimit.GetRecord` | src/hooks/useRateLimit.ts:18-31 | the record read is always dated today; it is the stored record exactly when that record is today's, and otherwise has count 0 (missing, unreadable or stale storage never raises) |
| `RateLimit.Remaining` | src/hooks/useRateLimit.ts:43 | the free generations left are between 0 and 3, are 0 exactly when the count reached the limit, and add up with the count to 3 below the limit |
| `RateLimit.Charge` | src/hooks/useRateLimit.ts:48-51 | recordGeneration stores a record dated today whose count is the count read plus one; a stale record is overwritten and restarts at 1 |
| `RateLimit.ChargeTimesCount` | src/hooks/useRateLimit.ts:48-53 | n generations recorded on one day add exactly n to that day's count |
| `RateLimit.FreshDayAfter` | src/hooks/useRateLimit.ts:48-53 | from a fresh day, n recorded generations leave the record `{today, n}` and max(0, 3 - n) free generations; the count grows past 3 while the remainder stays 0 |
| `RateLimit.StaleRecordResets` | src/hooks/useRateLimit.ts:23-30 | a record of another day, even one at the limit, reads as `{today, 0}` with the whole quota left |
| `RateLimit.UnreadableStoreIsFresh` | src/hooks/useRateLimit.ts:19-30 | missing or unreadable storage reads as `{today, 0}` with the whole quota left |
| `RateLimit.RateLimiter.constructor` | src/hooks/useRateLimit.ts:38-39 | the first render shows 3 free generations, whatever is stored, and the page starts locked |
| `RateLimit.RateLimiter.Mount` | src/hooks/useRateLimit.ts:41-44 | the mount effect sets `remaining` from today's record and writes nothing to storage |
| `RateLimit.RateLimiter.SaveRecord` | src/hooks/useRateLimit.ts:33-35 | the slot afterwards holds exactly the given record |
| `RateLimit.RateLimiter.RecordGeneration` | src/hooks/useRateLimit.ts:48-53 | the slot afterwards is `Charge` of the old slot, and `remaining` agrees with the new count, so 0 <= remaining <= 3; the unlock flag is untouched |
| `RateLimit.RateLimiter.VerifyPasscode` | src/hooks/useRateLimit.ts:55-61 | answers true exactly for the text "1122", untrimmed, on every call; a match sets `unlocked`, a miss changes nothing, and `unlocked` is never cleared |
| `RateLimit.RateLimiter.CanGenerate` | src/hooks/useRateLimit.ts:46 | generation may proceed whenever the page is unlocked, and otherwise exactly while free generations are left |
| `RateLimit.CanGenerateWhileUnderLimit` | src/hooks/useRateLimit.ts:46 | while locked and in step with today's record, generation may proceed exactly while fewer than 3 generations are recorded today |
| `RateLimit.CanGenerateOnceUnlocked` | src/hooks/useRateLimit.ts:46 | once unlocked, generation may proceed whatever today's count |
| `Passcode.PasscodeModal.constructor` | src/components/PasscodeModal.tsx:12-13 | the dialog opens with an empty input and no error |
| `Passcode.PasscodeModal.Edit` | src/components/PasscodeModal.tsx:53-56 | any edit puts the new text in the input and clears the error |
| `Passcode.PasscodeModal.SubmitDisabled` | src/components/PasscodeModal.tsx:68 | the Unlock button is disabled exactly when the input is empty or all white space |
| `Passcode.PasscodeModal.Submitted` | src/components/PasscodeModal.tsx:17 | the verifier gets the input without surrounding white space; it is empty exactly when submitting is disabled |
| `Passcode.PasscodeModal.Submit` | src/components/PasscodeModal.tsx:15-23 | on acceptance the owner is asked to close the dialog and input and error stay as they were; on rejection the error shows, the input is cleared and no close is asked for |
| `Home.HasPending` | src/app/page.tsx:56 | a parked request is replayed exactly when `pendingDescription` is neither null nor the empty string, the two falsy values of its type |
| `Home.GenerationEffects` | src/app/page.tsx:24-34 | doGenerate charges the quota first, then calls generate on the same description, and adds a gallery page exactly when generate gave a result |
| `Home.GenerationKeepsCharging` | src/app/page.tsx:24-34 | after any doGenerate, every generate call in the log was charged exactly once, immediately before it, and every gallery page follows its own generate call |
| `Home.DialogTrimsPadding` | src/components/PasscodeModal.tsx:17 | the passcode padded with white space unlocks through the dialog, although the padded text itself is not the passcode |
| `Home.HomePage.constructor` | src/app/page.tsx:19-22 | the page starts with the dialog closed and nothing parked |
| `Home.HomePage.Indicator` | src/app/page.tsx:80-88 | the badge reads "Unlimited access" exactly when the page is unlocked, and otherwise shows `remaining` |
| `Home.HomePage.DoGenerate` | src/app/page.tsx:24-34 | records the description, leaves the slot as `Charge` of the old slot, and appends exactly `GenerationEffects` to the log, keeping its invariant |
| `Home.HomePage.HandleGenerate` | src/app/page.tsx:36-46 | when canGenerate is false, parks the exact description and opens the dialog, with no charge and no generate call; otherwise runs doGenerate on it and leaves the dialog state as it was |
| `Home.HomePage.HandlePasscodeClose` | src/app/page.tsx:48-51 | closes the dialog and drops the parked request, with no charge and no generate call |
| `Home.HomePage.HandlePasscodeVerify` | src/app/page.tsx:53-64 | answers exactly what verifyPasscode answers; on success with a parked request closes the dialog, replays that very request (charging the quota again) and drops it; otherwise dialog state, log and storage are unchanged |
| `Home.SubmitPasscode` | src/app/page.tsx:132-136 | submitting the open dialog unlocks exactly when the trimmed input is "1122"; on success the dialog closes with the parked request replayed once and charged; on failure the error shows, the input is cleared, the request stays parked and the quota state, the log and canGenerate are unchanged |

## Left out

- `localStorage`, `JSON.parse`/`JSON.stringify` and the storage key are reduced to one typed slot. A blank value and a missing key are both `Absent`. Every parse failure or non-record value is `Corrupt`.
- A parsed record dated today whose `count` is missing or not a number is returned as it is by `getRecord` (`useRateLimit.ts:22-24`). The model's record has a `nat` count, so it cannot express this.
- `RateLimit.RateLimiter.SaveRecord`: `saveRecord` is not inside a `try` (`useRateLimit.ts:33-35`), so `localStorage.setItem` can throw (quota exceeded, storage disabled). Then `recordGeneration` throws and `doGenerate` stops before `generate` is called (`page.tsx:27-28`). The model's `SaveRecord` always succeeds, so this error path is not captured.
- `count` is a JavaScript number. The model uses an unbounded `nat`, as a count stays far below 2^53.
- `new Date().toISOString()` is the parameter `today`. Nothing checks that it has the `YYYY-MM-DD` form.
- The generation service (`useGenerate`) and the gallery (`useGallery`) are not part of this model. Only the order of the calls and whether generate returned a result are kept.
- `async`/`await`, React's batching of state updates and re-renders, and the closures of `useCallback` are not modelled. Each handler is one atomic step over the current state. For example, `handleGenerate` uses the `canGenerate` of its own render.
- The page's JSX, the form, the preview, the dialog's layout, autofocus and `preventDefault` are left out. The one exception is the choice of badge text.

