# Portfolio page client logic — Dafny model

This project models the three pieces of client-side logic in a personal
portfolio web page (a React/TypeScript single-page site):

- **Contact form** (`src/App.tsx`): `validateForm`, which checks the name,
  the email and the message in a fixed order and returns the first failing
  reason or `null`; and `sendEmail`, which updates two independent pieces of
  React state, `errors` and `success`, and hands a valid submission to an
  external mail relay whose completion later sets `success` or a generic error.
- **First-visit confetti** (`src/App.tsx`): a mount effect that fires once
  per browsing session, remembered under the sessionStorage key
  `"confettiShown"`.
- **Welcome audio** (`src/WelcomeAudio.tsx`): a muted preload on mount, a
  clickable prompt that plays the anthem at full volume, and a stop timer per
  click (120000 ms) that pauses the audio and hides the prompt. Earlier
  timers are never cancelled.
- **Theme toggle** (`src/ThemeToggle.tsx`): a `dark` flag read from
  localStorage, flipped by a button, and mirrored by an effect into the root
  element's class list and back into localStorage.

Files and modules, one per component:

- `browser.dfy` — module `Browser`: `Option` (JavaScript `null` is `None`),
  Web Storage as `map<string, string>` with `GetItem`/`SetItem`, and a
  `Window` class holding localStorage, sessionStorage and the root class set.
- `contact_form.dfy` — module `ContactForm`: the three checks, `ValidateForm`,
  the form state as a datatype with pure transitions (`OnSubmit`, `OnSettle`),
  and the class `ContactFormController` whose methods update `errors`,
  `success` and the requests in flight and are proved against the transitions.
- `intro_effect.dfy` — module `IntroEffect`: the confetti flag.
- `welcome_audio.dfy` — module `WelcomeAudio`: the prompt state as a
  datatype with pure transitions (`OnMount`, `OnClick`, `OnTick`), the classes
  `AudioElement` and `WelcomeAudioComponent`, and lemmas over runs of events.
- `theme_toggle.dfy` — module `ThemeToggle`: initialisation, the sync
  effect, the click, and the round trip through storage.

`ContactForm` and `WelcomeAudio` share one shape: a class whose methods
mutate fields as the source does, each method ensuring
`State() == OnX(old(State()), ...)` for a pure transition function, and
lemmas over the pure transitions, including induction over arbitrary runs
of events, for the properties that span several events. `IntroEffect` is a
module-level method over the browser `Window`, specified by the function
`AfterEffect`. `ThemeToggle` is a class holding only `dark`: its click is
specified directly, its effect by `SyncClasses` and `SyncStore` over the
`Window`, and its lemmas relate single calls (round trip, idempotence).

Behaviour of the code that is easy to misread:

- `errors` and `success` are two independent fields, not one four-way
  result. `success` is never reset, so after a success a later failure
  shows the error and the success message together
  (`StaleSuccessShownWithError`).
- Only the timer callback hides the audio prompt; a click does not.
- The code comment says the audio stops after 20 seconds; the constant
  passed to `setTimeout` is 120000 ms, which is what `StopDelay` holds.
- The confetti flag test is JavaScript truthiness of the stored string: the
  confetti fires when the key is absent or holds the empty string, and a
  stored `"false"` suppresses it (`ShouldFire`).

## Model

| member | source | states |
|---|---|---|
| `ContactForm.ValidateForm` | src/App.tsx:43-60 | the name reason iff the name is empty or has a character that is not an ASCII letter or whitespace; once the name passes, the email reason iff the email is not well shaped; once both pass, the message reason iff the message is blank; `None` iff all three pass |
| `ContactForm.MissingFormRejected` | src/App.tsx:43-69 | with no form element every field reads as `"undefined"`, and validation rejects the submission with the email reason |
| `ContactForm.SubjectIgnored` | src/App.tsx:43-60 | changing the subject never changes the validation result |
| `ContactForm.EmailMatchesIff` | src/App.tsx:45 | the email regular expression, read literally as a split into local part, host and top-level part, accepts exactly the addresses with one `@`, no whitespace, a non-empty local part and a domain with a `.` that is neither its first nor its last character |
| `ContactForm.SplitIsWellShaped` | src/App.tsx:45 | any split the regular expression accepts yields a well-shaped address |
| `ContactForm.WellShapedSplits` | src/App.tsx:45 | every well-shaped address has a split the regular expression accepts |
| `ContactForm.CountOneAfterFirst` | src/App.tsx:45 | with the first `@` at index a, there is exactly one `@` iff none follows a |
| `ContactForm.SkipSpace` | src/App.tsx:55 | the index returned is the first non-whitespace character at or after the start, everything skipped is whitespace |
| `ContactForm.SkipSpaceBack` | src/App.tsx:55 | the index returned ends the last non-whitespace character, everything skipped at the end is whitespace |
| `ContactForm.Trim` | src/App.tsx:55 | `trim` gives the empty string iff the input is all whitespace; otherwise its first and last characters are not whitespace; the result is a slice of the input with only whitespace outside it |
| `ContactForm.StepKeepsConsistentAndSuccess` | src/App.tsx:71-87 | a submit or a relay completion keeps `errors` null or one of the four messages and every in-flight request valid, and never turns `success` from true to false |
| `ContactForm.InitialConsistent` | src/App.tsx:40-41 | the first render, with `errors` null, `success` false and nothing in flight, satisfies the invariant the lemmas over runs assume |
| `ContactForm.SuccessNeverResets` | src/App.tsx:40-88 | along any run of submits and completions in any order, those invariants hold and a true `success` stays true |
| `ContactForm.StaleSuccessShownWithError` | src/App.tsx:640-645 | after a success, a failing submit or a relay failure leaves an error and the success message displayed together |
| `ContactForm.ContactFormController.constructor` | src/App.tsx:40-41 | `errors` starts null, `success` false, no request in flight |
| `ContactForm.ContactFormController.SendEmail` | src/App.tsx:61-85 | a failing check sets `errors` to exactly its reason and sends nothing; a passing submit sets `errors` to null and issues exactly one relay request with the fields; `success` is untouched |
| `ContactForm.ContactFormController.RelayResolved` | src/App.tsx:86 | a delivered request sets `success` and leaves `errors`; the request leaves the in-flight list |
| `ContactForm.ContactFormController.RelayRejected` | src/App.tsx:87 | a failed request sets `errors` to the generic message and leaves `success`; the request leaves the in-flight list |
| `IntroEffect.ShouldFire` | src/App.tsx:28-29 | the confetti fires iff `"confettiShown"` is absent or holds the empty string |
| `IntroEffect.FiresOncePerSession` | src/App.tsx:28-36 | after the effect the key holds `"true"`, a second run fires nothing and changes nothing, no other key is touched |
| `IntroEffect.RunConfettiEffect` | src/App.tsx:26-38 | fires exactly when the flag is unset and then records `"true"`; otherwise leaves the session storage as it was |
| `IntroEffect.LoadTwice` | src/App.tsx:26-38 | two loads in one session fire at most once, the second never |
| `WelcomeAudio.Initial` | src/WelcomeAudio.tsx:4-5 | the prompt starts visible with no pending timer |
| `WelcomeAudio.MountKeepsPrompt` | src/WelcomeAudio.tsx:7-16 | mount sets the volume to 0 and leaves the prompt and the timers as they were, whatever the play attempt does |
| `WelcomeAudio.ClickRestartsAndSchedules` | src/WelcomeAudio.tsx:18-31 | a click on the visible prompt sets volume 1 and position 0, plays if allowed, and appends exactly one timer due 120000 ms from now |
| `WelcomeAudio.ClickWithoutTargetIgnored` | src/WelcomeAudio.tsx:19-37 | with the prompt hidden or no audio element, a click changes nothing and schedules nothing |
| `WelcomeAudio.Pending` | src/WelcomeAudio.tsx:26-29 | the timers left after time t are exactly those with deadlines later than t |
| `WelcomeAudio.NonePending` | src/WelcomeAudio.tsx:26-29 | when every deadline has passed, no timer is left pending |
| `WelcomeAudio.FiredTimerStops` | src/WelcomeAudio.tsx:26-28 | when a pending timer fires, the audio is paused and the prompt hidden |
| `WelcomeAudio.StopsWithinDelay` | src/WelcomeAudio.tsx:21-29 | one full delay after any valid state (`InitialValid` and `PromptNeverReturns` make every reachable state valid), every timer has fired, and if any was pending the audio is paused and the prompt hidden |
| `WelcomeAudio.InitialValid` | src/WelcomeAudio.tsx:4-5 | the first render satisfies the timer invariant the lemmas over runs assume |
| `WelcomeAudio.TimerNotCancelled` | src/WelcomeAudio.tsx:18-31 | no mount, click or passage of time removes a timer whose deadline is still in the future |
| `WelcomeAudio.StepKeepsValid` | src/WelcomeAudio.tsx:5-31 | every event keeps pending timers within one delay of now and only with an audio element; a hidden prompt stays hidden, the number of pending timers does not grow and every timer still pending was pending before |
| `WelcomeAudio.PromptNeverReturns` | src/WelcomeAudio.tsx:5-37 | along any run of events, the invariant holds and once the prompt is hidden it stays hidden, the number of pending timers does not grow and every timer still pending was already pending when it was hidden |
| `WelcomeAudio.EarlierTimerCutsRestartedPlayback` | src/WelcomeAudio.tsx:18-31 | with clicks at t1 < t2 < t1 + 120000, the second click restarts playback, yet at t1 + 120000 the first timer pauses it and hides the prompt while the second timer is still pending |
| `WelcomeAudio.AudioElement.constructor` | src/WelcomeAudio.tsx:35 | a fresh audio element is at full volume, at the start, paused |
| `WelcomeAudio.WelcomeAudioComponent.constructor` | src/WelcomeAudio.tsx:4-5 | the component starts with the prompt visible and no timer |
| `WelcomeAudio.WelcomeAudioComponent.Mount` | src/WelcomeAudio.tsx:7-16 | the mount effect mutates the element as `OnMount` describes |
| `WelcomeAudio.WelcomeAudioComponent.Click` | src/WelcomeAudio.tsx:18-31 | `handlePlay` mutates the element and the timers as `OnClick` describes |
| `WelcomeAudio.WelcomeAudioComponent.Tick` | src/WelcomeAudio.tsx:26-29 | time passing fires the due timers as `OnTick` describes |
| `ThemeToggle.InitialDark` | src/ThemeToggle.tsx:5-7 | `dark` starts true iff the stored `"theme"` is exactly `"dark"` |
| `ThemeToggle.SyncClasses` | src/ThemeToggle.tsx:10-16 | after the effect the root classes contain `"dark"` iff `dark`, and no other class changes |
| `ThemeToggle.SyncStore` | src/ThemeToggle.tsx:13-16 | after the effect `"theme"` holds `"dark"` when `dark` and `"light"` otherwise, and no other key changes |
| `ThemeToggle.ThemeRoundTrip` | src/ThemeToggle.tsx:6-16 | reading the theme back after the effect yields the same `dark` |
| `ThemeToggle.SyncIdempotent` | src/ThemeToggle.tsx:9-18 | running the effect twice with the same `dark` leaves classes and storage as after one run |
| `ThemeToggle.MountNormalisesTheme` | src/ThemeToggle.tsx:5-18 | after the first render the stored theme is `"dark"` if it was `"dark"` and `"light"` for any other value or none |
| `ThemeToggle.ThemeToggleComponent.constructor` | src/ThemeToggle.tsx:5-7 | the component's `dark` is initialised from localStorage |
| `ThemeToggle.ThemeToggleComponent.Click` | src/ThemeToggle.tsx:22 | a click flips `dark` |
| `ThemeToggle.ThemeToggleComponent.SyncEffect` | src/ThemeToggle.tsx:9-18 | the effect updates the root classes and localStorage as `SyncClasses` and `SyncStore` describe |
| `ThemeToggle.ThemeToggleComponent.ClickTwice` | src/ThemeToggle.tsx:9-22 | two clicks, each followed by the effect, restore `dark`, the root classes and the storage |

## Left out

- Page markup, styling, icons, bio text and links (`src/App.tsx` from line 90 on, apart from the two feedback messages at lines 640-645): presentation without logic.
- The confetti, sparkle and motion animations and their parameters, `src/SectionWrapper.tsx` and `vite.config.ts`: visual effects and build configuration.
- The mail relay call (`emailjs.sendForm`): it is a network call to a third-party service. It is modelled as a request record added to the in-flight list, settled later by a separate event that either delivers or fails. The service id, template id, public key and wire format are not modelled.
- Promise scheduling and concurrency: overlapping submissions are independent completion events that may settle in any order, the last writer wins.
- Browser-native form validation (`required`, `type="email"`), which runs before `onSubmit`; only `validateForm` is modelled.
- A missing form element and a missing field: every field is taken to arrive as a string. With no form element, each optional-chained read gives `undefined`; the regular expressions test it as the string `"undefined"`, so the name check passes and the email check rejects it (`MissingFormRejected` proves this for four `"undefined"` strings). A missing field inside a present form throws when its `.value` is read, before validation runs.
- The regular-expression engine: the name, email and trim checks are defined directly over characters, with one whitespace predicate (`IsSpace`, ECMAScript WhiteSpace and LineTerminator) for `\s` and for `trim`.
- Strings are sequences of Unicode code points rather than UTF-16 code units. All characters the checks single out lie in the Basic Multilingual Plane, so both readings accept the same strings.
- Real audio: decoding, the autoplay policy (an `allowed` flag says whether a play attempt succeeds), the position advancing while playing, and the track ending on its own.
- Real time: the clock is a natural number of milliseconds. All timers due within one `Tick` fire together; since every timer callback does the same thing (pause, hide), firing several is the same as firing one.
- React render scheduling and repeated effects under development mode; unmounting (no effect returns a cleanup, so a pending stop timer would still fire after the audio prompt is gone); the theme toggle is modelled on its own, although `src/App.tsx` does not mount it.
- Runs of events in the welcome-audio lemmas: any event may follow any state, including a second mount, so the lemmas over runs hold for more behaviours than the page can produce.
