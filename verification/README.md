# Nerza Agency trip builder — Dafny model

A model of the two pieces of the Nerza Agency site that hold logic:

- **The trip form** (`components/ServicesSection.tsx`). The model covers:
  - the pricing rule `calculatePrice`
  - the validity test `isFormValid`
  - the effect that empties the selected interests when the region changes
  - the interest toggle
  - the duration input clamp
  - `handleSubmit`, `handleReset`, `handleFullReset` and `handleConfirmBooking`

  The component's thirteen `useState` variables form one `FormState` record. Each handler is a pure transition, and `Step` dispatches an `Event` to the matching transition. `Consistent` is the state invariant that every event the page can raise preserves (a toggle only of an interest offered for the current region).
- **The generation client** (`services/geminiService.ts`). The model covers:
  - `generateContentWithRetry`: the retry wrapper with its rate-limit classifier and its exponential backoff with jitter
  - `generateWithFallback` and the tagline built on it (`generateAgencyContent`)
  - `generateItinerary`: the prompt template, the sample itinerary used when no key is set, and the fixed error it throws when the call fails

  The SDK, `process.env.API_KEY` and `Math.random` become a `Service` value:
  - whether the key is set (the client exists exactly then)
  - the outcome of the k-th attempt at a given request
  - the k-th jitter draw

  A `Run` records what a call produced, how many SDK calls it made, and the waits between them.

Modules:

- `Basics`: `Option` and `Result`.
- `Text`: the JavaScript string built-ins the code relies on — `includes`, `trim`, `join`, and the decimal rendering of an integer — each with its specification.
- `GeminiService` and `GeminiProperties`: the generation client and its lemmas.
- `ServicesSection` and `ServicesSectionProperties`: the trip form and its lemmas.

Two behaviours of the code worth noting:

- `generateItinerary` has no fallback text when a key is set and the call fails. It throws `"Failed to generate itinerary from AI after multiple attempts."`, and the form then shows its generic error. The sample itinerary is used only when no key is configured (`ItineraryFailureIsRethrown`).
- `handleFullReset` does not reset the duration or the budget. After a confirmation the form returns to its initial state except for those two fields (`ConfirmationEndsInInitialState`).

## Model

| member | source | states |
|---|---|---|
| GeminiService.GenerateContentWithRetry | services/geminiService.ts:18-53 | without a client it throws the "not initialized" error and makes no call; with one it makes between 1 and retries+1 calls; every call before the last was rate limited; if it stopped with retries left, the last outcome was not retryable; the caller gets that last outcome (text returned, error rethrown); the j-th wait is the delay doubled j times plus the j-th jitter |
| GeminiService.BackoffIsPowerOfTwo | services/geminiService.ts:38-43 | the delay before the k-th retry is `delay * 2^k` |
| GeminiService.IsRateLimitError | services/geminiService.ts:35 | the classifier has no contract of its own; its partner `RateLimitClassification` states what it decides |
| GeminiProperties.RateLimitClassification | services/geminiService.ts:35 | an error is retryable exactly when its string form contains "429" or "RESOURCE_EXHAUSTED" |
| GeminiProperties.RetryStopsAtFirstSettled | services/geminiService.ts:30-52 | if the first non-rate-limited outcome is at attempt i ≤ retries, the wrapper makes exactly i+1 calls and hands back that outcome |
| GeminiProperties.RetryGivesUpAfterBudget | services/geminiService.ts:37-50 | if every attempt the budget allows is rate limited, exactly retries+1 calls are made and the last error is rethrown |
| GeminiProperties.TwoRateLimitsThenSuccess | services/geminiService.ts:21-43 | with the defaults, two rate-limit failures then a success give three calls, the text, and waits of 1000 ms and 2000 ms plus jitter |
| GeminiProperties.NonRateLimitErrorIsRethrownAtOnce | services/geminiService.ts:44-50 | a non-rate-limit error on the first try is rethrown after one call and no wait |
| GeminiProperties.AlwaysRateLimitedMeansFourCalls | services/geminiService.ts:21-50 | with the defaults, persistent rate limiting means four calls and three waits, and the fourth error is rethrown |
| GeminiProperties.RetryWaitSchedule | services/geminiService.ts:38-43 | the k-th wait is `delay * 2^k` plus the k-th jitter draw |
| GeminiProperties.RetryWaitsIncrease | services/geminiService.ts:38-43 | with jitter in [0, 500) and an initial delay of at least 500 ms, successive waits strictly increase |
| GeminiProperties.BackoffTotalClosedForm | services/geminiService.ts:39-43 | the first n backoff delays add up to `delay * (2^n - 1)` |
| GeminiProperties.ScheduleSum | services/geminiService.ts:38-41 | n waits total at least the backoff total and less than that plus 500 ms per wait |
| GeminiProperties.DefaultTotalWaitBound | services/geminiService.ts:21-43 | with the default arguments, the time spent waiting is under 7000 ms of backoff plus 1500 ms of jitter |
| GeminiService.GenerateWithFallback | services/geminiService.ts:55-73 | without a key it returns the fallback and makes no call; with a key it makes 1 to 4 calls and returns the last reply's text if that reply succeeded, otherwise the fallback; the waits follow the default backoff schedule |
| GeminiProperties.FallbackAbsorbsFailure | services/geminiService.ts:60-72 | with a key, a success of the retry wrapper passes through and every failure becomes the fallback, after the same calls and waits |
| GeminiService.GenerateAgencyContent | services/geminiService.ts:75-83 | without a key the tagline is the fixed fallback sentence and no call is made; with a key it makes 1 to 4 calls and is the last reply's text when that reply succeeded, otherwise the fallback sentence; every call before the last was rate limited, stopping early means the last outcome was not retryable, and the waits follow the default backoff schedule |
| GeminiProperties.TaglineUsesRetryWrapper | services/geminiService.ts:75-83 | with a key, the tagline makes exactly the retry wrapper's calls and waits on the tagline prompt; a success passes through and any failure gives the fallback sentence |
| GeminiService.GenerateItinerary | services/geminiService.ts:93-155 | without a key it gives the sample itinerary and makes no call; with a key it makes 1 to 4 calls and gives the last reply's text or the fixed itinerary error; the waits follow the default backoff schedule |
| GeminiProperties.ItineraryFailureIsRethrown | services/geminiService.ts:142-155 | with a key, the calls and waits are those of the retry wrapper; any failure of the wrapper becomes the fixed itinerary error, whatever was thrown; a success passes through |
| Text.IntToString | services/geminiService.ts:102 | the rendered duration is a string of decimal digits without a leading zero whose decimal value is n, with a "-" in front for a negative n |
| GeminiService.BuildPrompt | services/geminiService.ts:94-118 | the template has no contract of its own; its partner `PromptMentions` states what the filled-in prompt carries |
| GeminiProperties.PromptMentions | services/geminiService.ts:94-118 | the prompt carries the region's focus text, the interests joined by ", " (each verbatim) or the balanced-itinerary sentence when there are none, the duration in decimal, and the budget label |
| GeminiProperties.LocationFocusDistinguishesRegions | services/geminiService.ts:94-96 | the two regions get different focus texts |
| ServicesSection.CalculatePrice | components/ServicesSection.tsx:16-40 | the rounded price is exactly the tier's daily rate (6600, 8960, 12650) times the duration |
| ServicesSectionProperties.PriceExamples | components/ServicesSection.tsx:16-40 | Confort for 5 days costs 44800, Économique for 5 days 33000, Luxe for 10 days 126500 |
| ServicesSectionProperties.PriceMonotoneInDuration | components/ServicesSection.tsx:37-39 | for one tier the price is positive from one day on and does not decrease as the trip lengthens |
| ServicesSectionProperties.PriceOrderedByTier | components/ServicesSection.tsx:21-35 | for the same duration, Économique < Confort < Luxe |
| ServicesSectionProperties.RoundingKeepsWholeNumbers | components/ServicesSection.tsx:39 | rounding leaves a whole number unchanged |
| ServicesSection.IsFormValid | components/ServicesSection.tsx:57 | the form is valid exactly when name, email and phone each have a non-whitespace character and a region is chosen |
| ServicesSectionProperties.BlankFieldInvalidates | components/ServicesSection.tsx:57 | a phone made only of whitespace makes the form invalid |
| ServicesSection.SelectRegion | components/ServicesSection.tsx:59-62 | choosing a region sets it; a different region empties the interests; the same region changes nothing |
| ServicesSectionProperties.RegionChangeClearsInterests | components/ServicesSection.tsx:59-62 | after a change of region no interest is selected |
| ServicesSection.Remove | components/ServicesSection.tsx:68 | deleting an interest keeps exactly the others, in their order (the list with that one position dropped), and keeps the list duplicate-free |
| ServicesSection.ToggleInterest | components/ServicesSection.tsx:64-74 | the toggled interest flips membership, every other interest keeps it, and no duplicate appears; an added interest goes last after the others in their order, and a removed one leaves the others in their order |
| ServicesSection.HandleInterestChange | components/ServicesSection.tsx:64-74 | only the interests change: the toggled one flips, every other interest keeps its membership, and no duplicate appears |
| ServicesSectionProperties.ToggleTwice | components/ServicesSection.tsx:64-74 | toggling twice restores the selected set; the exact list when the interest was absent, otherwise the interest moves to the end of the order |
| ServicesSection.ClampDuration | components/ServicesSection.tsx:194 | the duration is at least 1: a parsed value of at least 1 is kept, and anything else (NaN, 0, negative) becomes 1 |
| ServicesSection.InterestNames | components/ServicesSection.tsx:89 | the selected interests' labels, in selection order |
| ServicesSection.StartGeneration | components/ServicesSection.tsx:82-85 | loading starts with no itinerary, price or error on display; the entered details and the dialogs are untouched |
| ServicesSection.FinishGeneration | components/ServicesSection.tsx:93-100 | loading ends and the entered details and dialogs are kept; a success stores the text and the price `DailyRate * duration`; a failure shows the generic error and leaves itinerary and price as they were |
| ServicesSection.Submit | components/ServicesSection.tsx:76-102 | an invalid form gets the validation message and no call; a valid one makes the calls of `generateItinerary`, then stores the text with the price `DailyRate * duration`, or clears both and shows the generic error; loading ends |
| ServicesSectionProperties.InvalidSubmitOnlySetsMessage | components/ServicesSection.tsx:78-81 | an invalid submit changes only the error message, makes no call, and does not depend on the service |
| ServicesSectionProperties.AgadirConfortScenario | components/ServicesSection.tsx:76-102 | a filled-in form for Agadir, 5 days, Confort, no interests, with no key: the form is valid and submitting shows the sample itinerary priced 44800, with no call and no error |
| ServicesSectionProperties.SubmittedPromptReflectsForm | components/ServicesSection.tsx:87-92 | the prompt built from the form names the region's focus, every selected interest's label, the duration and the budget label |
| ServicesSection.ModifyPreferences | components/ServicesSection.tsx:104-110 | no itinerary, price or error is left on display and loading is off; contact details, preferences and dialogs are kept |
| ServicesSectionProperties.ModifyThenSubmit | components/ServicesSection.tsx:76-110 | for a valid form, going back to the preferences and regenerating gives the same state and calls as regenerating straight away |
| ServicesSection.FullReset | components/ServicesSection.tsx:112-119 | the state is the initial one except for duration, budget and the two dialog flags |
| ServicesSection.ConfirmBooking | components/ServicesSection.tsx:121-123 | the finalize dialog is closed and the banner shown, while the entered details, itinerary, price, error and loading flag stay as they were |
| ServicesSection.ConfirmationElapsed | components/ServicesSection.tsx:124-127 | when the timer fires, the state is the initial one except for duration, budget and the dialog flag |
| ServicesSectionProperties.ConfirmationEndsInInitialState | components/ServicesSection.tsx:121-128 | confirming, then letting the timer fire, leaves the initial state with the last duration and budget |
| ServicesSection.Step | components/ServicesSection.tsx:149-269 | which events can change which part of the state: interests only by region choice, toggle or the banner timer; region only by region choice or the timer; duration and budget only by their inputs; the itinerary only by submit, modify or the timer; a new price only by submit; the dialogs only by their five events; name, email and phone only by their inputs or the timer; the error and loading flag only by submit, modify or the timer |
| ServicesSectionProperties.InitialConsistent | components/ServicesSection.tsx:43-55 | the initial state satisfies the invariant |
| ServicesSectionProperties.StepPreservesConsistent | components/ServicesSection.tsx:57-130 | every event the page can raise (a toggle only of an interest offered for the current region) keeps the invariant: no interest twice, only the region's offered interests, a price only with an itinerary, a duration of at least one day |

## Left out

- Rendering and styling: the JSX, the loading spinner and `BookingFinalizationModal` are not modelled. The page's own button opens the finalize dialog (`OpenFinalize`). The modal raises `CloseFinalize`, and `Confirm` after a simulated 1500 ms payment.
- Floating point: prices are computed on exact rationals, and `Math.round` is floor(x + 0.5). For the three tiers and integral durations the exact product is already whole.
- `duration` is taken as an unbounded integer. The JavaScript number's loss of precision above 2^53 is not modelled. Neither is its exponent form in the prompt from 10^21 on (`1e+21`, where the model writes the 22 digits).
- `parseInt` is not modelled: `ClampDuration` takes its result as an `Option<int>`, with `None` for NaN.
- Time: the 1500 ms delay before the sample itinerary, the modal's simulated 1500 ms payment, and the 5000 ms delay of the banner timer are not modelled. The timer's callback itself is modelled as `BannerTimeout` / `ConfirmationElapsed`. The waits of the retry wrapper are recorded in `Run.waits`, not slept.
- The SDK call, `process.env.API_KEY`, `Math.random` and `console` logging are external. They enter the model as the `Service` parameter, or are dropped in the case of logging.
- The response's text is taken to be a string. The SDK's `response.text` may be undefined, and that case is not modelled.
- The submit button is disabled while the form is invalid or loading. `Step` accepts a submit in any state, so it allows more than the page does.
- Concurrency: overlapping submits are not modelled. React state batching is taken to apply the handlers' updates as one transition.
- `Step` treats the form's later events as independent of any still-pending call. The asynchronous gap between `StartGeneration` and the result is collapsed.

