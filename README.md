# Fire-safety site: quiz, service-request wizard and product filters

This project models the decision logic of the fire-safety services website's
client script (`main.js`) and proves properties of it. The logic has four
parts:

- **Assessment quiz.** Eight fixed single-choice questions with a cursor
  (`currentQuestion`), an answer map (`answers`) and a Next button. Every
  rendering of a question creates the Next button disabled. An option click
  records the option and enables Next. Next on the last question shows the
  results.
- **Recommendation engine.** `generateRecommendations` applies four
  independent tests to the answers. Each test appends at most one package,
  in declaration order.
- **Service-request form.** A cursor `currentStep` over the form's steps, an
  `active` class per step, and per-step required inputs. `validateStep` marks
  the inputs whose trimmed value is empty with `error`. The Next and Previous
  handlers move the cursor. The submit handler resets the form and shows
  step 0 again.
- **Product filters.** Category buttons and a search box. Each one sets the
  display of every product card.

Modules:

- `Text`: `toLowerCase` as an ASCII case map, plus `trim` and `includes`.
- `Recommendations`: the engine. It is proved equal to an independent rule
  list evaluated in order.
- `Quiz`: a pure state with transitions (`Select`, `Next`, `Prev`). The class
  `Quiz.Controller` has handlers whose contracts tie each new state to those
  transitions.
- `ServiceForm`: the same structure (`Next`, `Prev`, `Submit`). The class
  `ServiceForm.RequestForm` holds the `showStep` and `validateStep` loops.
- `ProductFilter`: the two card loops, as methods that return one visibility
  flag per card.

Behaviour kept exactly as `main.js` has it:

- A quiz question that was already answered still needs a fresh option click
  before Next works again. A recorded answer does not enable Next; only a
  click in the current rendering does. So "Previous, then Next" does not
  return to where the user was. "Previous, select the same option again,
  Next" does (`Quiz.PrevReselectNextRoundTrip`).
- Reaching the results takes eight Next clicks: seven moves, then the click
  on the last question.
- The service form's Previous handler decrements without a guard. The cursor
  can reach -1, -2, … while step 0 stays displayed.
- The service form's Next handler can push the cursor to the step count while
  the last step stays displayed.
- With the cursor outside the steps, `validateStep` reads `steps[currentStep]`
  as `undefined` and throws. The Next click then changes nothing. Once the
  cursor is negative it therefore never becomes a step index again
  (`ServiceForm.NegativeCursorNeverRecovers`).
- Submission shows step 0 but leaves `currentStep` as it was. The next Next
  click validates and marks the inputs of a hidden step
  (`ServiceForm.SubmitLeavesCursorBehind`).

The two wizards differ in how Previous is handled:

- The quiz's Previous is guarded twice. The button is rendered only when
  `currentQuestion > 0` (main.js:271), and its handler checks the same
  condition again before decrementing (main.js:303). Previous on question 0
  therefore cannot happen, and the model's `Quiz.Prev` changes nothing there.
- The service form's Previous handler decrements `currentStep` with no guard
  (main.js:432).
- Neither wizard has a reset operation that returns the cursor to the first
  step. The service form's submit handler shows step 0 but leaves
  `currentStep` as it was.
- In the quiz, Previous followed by Next does not return to the question the
  user left, because the re-rendered Next button is disabled.

## Model

| member | source | states |
|---|---|---|
| `Text.ToLower` | main.js:188-191 | `toLowerCase` keeps the length, turns each upper-case ASCII letter into the lower-case letter at the same place in the alphabet, and changes no other character |
| `Text.ToLowerIdempotent` | main.js:188-192 | lowercasing an already lowercased string changes nothing |
| `Text.TrimStart` | main.js:445 | the result is a suffix of the input, everything dropped is white space, and the result does not start with white space |
| `Text.TrimEnd` | main.js:445 | the result is a prefix of the input, everything dropped is white space, and the result does not end with white space |
| `Text.Trim` | main.js:445 | `trim` returns the middle slice of the input left after removing a leading and a trailing run of white space; a non-empty result neither starts nor ends with white space, and the result is empty exactly when the input is all white space |
| `Text.TrimEmptyIffAllSpace` | main.js:445 | trimming both ends yields the empty string exactly when every character is white space |
| `Text.IsBlank` | main.js:445 | `!value.trim()` holds exactly when every character of the value is white space |
| `Text.Contains` | main.js:194 | `includes` accepts the empty string and the whole string, and never a longer string |
| `Text.ContainsPrefix` | main.js:194 | a string that includes `t + u` includes `t` |
| `Recommendations.GenerateRecommendations` | main.js:353-390 | the four tests produce exactly the packages of the firing rules, in declaration order (the independent rule list evaluated in order), so between 0 and 4 packages |
| `Recommendations.EvaluateLength` | main.js:353-390 | evaluating a rule list yields one package per firing rule, never more than there are rules |
| `Recommendations.PackagePresentIff` | main.js:357-387 | rule i's package appears in the output if and only if rule i fires |
| `Recommendations.RuleIgnoresOtherKeys` | main.js:357-381 | changing the answer at any other key never changes whether a rule fires |
| `Recommendations.UninspectedAnswersIrrelevant` | main.js:353-390 | answers to questions 1, 2, 6, 7 (or any key outside 0, 3, 4, 5) do not affect the output |
| `Recommendations.OnlyInspectedKeysMatter` | main.js:353-390 | two answer maps that agree on keys 0, 3, 4, 5 give the same output |
| `Recommendations.ThreeRulesInOrder` | main.js:365-387 | answers {3: None, 4: Server rooms/IT equipment, 5: Never} give assessment, clean-agent and inspection packages, in that order |
| `Quiz.Start` | main.js:244-245 | the first rendering is well formed: question 0, no answers, Next disabled |
| `Quiz.Select` | main.js:282-287 | an option click writes that option at the current index only, enables Next, keeps every other answer, and keeps the quiz well formed |
| `Quiz.Next` | main.js:290-299 | a disabled Next changes nothing; an enabled Next before the last question moves the cursor by one with Next disabled again; an enabled Next on the last question shows the results of the current answers, which are then complete; answers never change |
| `Quiz.Prev` | main.js:301-308 | behind a button rendered only past question 0, the cursor decreases by one only when it is above 0, and otherwise nothing at all changes; Next is disabled after a move, and answers never change |
| `Quiz.Apply` | main.js:276-308 | every user event keeps the quiz invariant (cursor in [0, 8), answers are options of their own question, every earlier question answered) |
| `Quiz.Run` | main.js:247-309 | any event sequence keeps the quiz invariant, and nothing changes once the results are shown |
| `Quiz.AnswersWrittenOnlyAtCursor` | main.js:285 | an event changes or adds an answer only at the current index, and removes none |
| `Quiz.AnswersNeverRemoved` | main.js:285 | over any event sequence, every recorded answer stays recorded |
| `Quiz.RefusedNextIsIdempotent` | main.js:272 | while Next is disabled, any number of Next clicks leaves the state unchanged |
| `Quiz.NextRefusedAtStart` | main.js:272 | Next at the start, with nothing selected, changes nothing |
| `Quiz.ReturningNeedsFreshSelection` | main.js:301-306 | after Previous the shown question is answered, yet Next is disabled and refuses to move |
| `Quiz.PrevReselectNextRoundTrip` | main.js:282-306 | Previous, re-selecting the recorded answer, then Next returns to the same question with the same answers |
| `Quiz.ScriptFrom` | main.js:290-297 | from question n with the earlier ones answered, selecting then clicking Next for each remaining question reaches the results of the full answer map |
| `Quiz.CompletingTheQuiz` | main.js:290-312 | answering all eight questions and clicking Next after each ends in the results of exactly those answers |
| `Quiz.OfficeAnswersRecommendCommercialOnly` | main.js:357-387 | the office scenario's answers fire the commercial rule and no other |
| `Quiz.CommercialOfficeScenario` | main.js:290-312 | an office building with no other triggering answer ends, after eight Next clicks, with exactly the commercial package |
| `Quiz.Controller.constructor` | main.js:244-245 | the controller starts in the well-formed start state |
| `Quiz.Controller.ChooseOption` | main.js:282-287 | the option handler updates the fields as `Select` does |
| `Quiz.Controller.ClickNext` | main.js:290-299 | the Next handler updates the fields as `Next` does |
| `Quiz.Controller.ClickPrevious` | main.js:301-308 | the Previous handler updates the fields as `Prev` does |
| `ServiceForm.Shown` | main.js:406-409 | `showStep(i)` leaves exactly step i active for i in range and no step active otherwise |
| `ServiceForm.Marked` | main.js:444-451 | after validation an input is marked `error` exactly when its value is all white space; values are unchanged |
| `ServiceForm.Start` | main.js:462-463 | the form starts well formed, with cursor 0 and the display in step with it; every input holds its reset value and carries no error mark |
| `ServiceForm.Next` | main.js:419-428 | the form stays well formed, the cursor either stays or moves up by one, and never exceeds the step count; after a move to a step index exactly that step is shown, otherwise the display is unchanged, whether or not it was in step with the cursor before |
| `ServiceForm.Prev` | main.js:430-437 | the cursor always decreases by one, with no lower bound; when it is still non-negative exactly that step is shown, otherwise the display is unchanged; inputs are untouched |
| `ServiceForm.Reset` | main.js:558 | `form.reset()` keeps the shape of every step's inputs, gives every input its reset value, and keeps every error mark |
| `ServiceForm.Submit` | main.js:550-565 | submission resets every input, shows exactly step 0, and leaves the cursor unchanged |
| `ServiceForm.Fill` | main.js:445 | typing sets the value of one input and changes nothing else: no other input, no error mark, neither cursor nor display |
| `ServiceForm.Apply` | main.js:419-460 | every event keeps the cursor at most the step count and exactly one step displayed |
| `ServiceForm.Run` | main.js:419-460 | any event sequence keeps the form well formed |
| `ServiceForm.NextAdvancesIffStepComplete` | main.js:419-454 | on a step index, Next advances if and only if no required input of the step is blank; afterwards an input is marked exactly when it is all white space; other steps are untouched |
| `ServiceForm.NextOutsideStepsChangesNothing` | main.js:439-441 | with the cursor outside the steps, Next throws and changes nothing |
| `ServiceForm.NextPastLastStep` | main.js:421-425 | Next on a complete last step moves the cursor to the step count without redrawing, and a further Next changes nothing |
| `ServiceForm.PrevFromFirstStep` | main.js:432-435 | Previous on step 0 moves the cursor to -1 and leaves the display as it was |
| `ServiceForm.PrevClicksFromFirstStep` | main.js:430-437 | k Previous clicks from step 0 or below lower the cursor by k while the display stays |
| `ServiceForm.NegativeCursorNeverRecovers` | main.js:419-441 | once the cursor is negative, no sequence of events makes it non-negative again |
| `ServiceForm.NavigationKeepsSync` | main.js:419-437 | Next, Previous and typing keep the displayed step equal to the cursor clamped to the step indices |
| `ServiceForm.SyncedWithoutSubmit` | main.js:419-437 | without a submission, the displayed step always equals the clamped cursor |
| `ServiceForm.SubmitLeavesCursorBehind` | main.js:561-564 | after submitting on a later step, step 0 is shown but the next Next validates the hidden step and leaves step 0's inputs alone |
| `ServiceForm.SubmitDiscardsTyping` | main.js:550-565 | a submission after typing into an input ends in the same state as a submission without it |
| `ServiceForm.ResetIdempotent` | main.js:558 | resetting the form twice is the same as resetting it once |
| `ServiceForm.RequestForm.constructor` | main.js:462-463 | the form object starts in the start state, whatever steps the markup had active |
| `ServiceForm.RequestForm.ShowStep` | main.js:406-409 | the toggle loop sets the active marks to `Shown` |
| `ServiceForm.RequestForm.ValidateStep` | main.js:439-454 | the loop visits every required input, returns whether none is blank, and marks the inputs as `Marked` does |
| `ServiceForm.RequestForm.ClickNext` | main.js:419-428 | the Next handler updates the state as `Next` does and reports whether `validateStep` threw |
| `ServiceForm.RequestForm.ClickPrevious` | main.js:430-437 | the Previous handler updates the state as `Prev` does |
| `ServiceForm.RequestForm.HandleSubmit` | main.js:550-565 | the submit handler updates the state as `Submit` does |
| `ProductFilter.ClickFilter` | main.js:158-183 | afterwards exactly the clicked button is active, and a card is visible if and only if the filter is `all` or equals its category |
| `ProductFilter.Search` | main.js:186-201 | a card is visible if and only if its lowercased name or description includes the lowercased term |
| `ProductFilter.CategoryMatches` | main.js:167-168 | the `all` filter matches every card; any other filter matches exactly the cards whose `data-category` equals it |
| `ProductFilter.SearchMatches` | main.js:188-193 | an empty term matches every card, and a name or description equal to the term up to ASCII case always matches |
| `ProductFilter.SearchIgnoresTermCase` | main.js:188 | lowercasing the term first does not change which cards match |
| `ProductFilter.LongerTermShowsFewer` | main.js:188-198 | a card matching a term also matches every prefix of it, so typing more can only hide cards |

## Left out

- HTML templates and `innerHTML` rendering of questions and results: presentation only. The question prompts and option texts are kept as data.
- Progress bars and their percentages (`showStep` and `renderQuestion`), and `animateCounter`: floating point, `performance.now` and `requestAnimationFrame`.
- Animations and third-party libraries (`anime`, `IntersectionObserver`, `Typed`, `Splide`, the Leaflet map and markers): foreign code. This includes the `anime` call on each card shown by a category filter.
- `showNotification`, `contactServiceArea` and the emergency `confirm`/`tel:` redirect: timers, navigation and I/O.
- The quiz's consultation form and `handleQuizSubmission`: they collect `FormData`, discard it, show a notification and reset the form.
- `FormData` collection in `handleServiceRequestSubmission` and the general form handler: the data is discarded. The form reset and step reset are modelled.
- Mobile navigation toggle, smooth scrolling, and the early returns when the quiz container, the form or the search box is absent: DOM wiring.
- Which steps carry Next or Previous buttons is a matter of the page markup. The model allows a click on either at any time.
- The browser's own constraint validation of `required` inputs before a `submit` event: it is not part of the script. `ServiceForm.Submit` may happen in any state.
- Inputs without `required` are not read by `validateStep`, so they are not modelled.
- `Text.ToLower`: `toLowerCase` is modelled as an ASCII case map. Unicode case mapping is not modelled.
- `ProductFilter.ClickFilter`: the visibility is returned as a fresh sequence rather than written into the card elements in place. Each handler overwrites every card's display, so the previous display is not an input.
- `ProductFilter.Search`: a card without a name or description element would make the handler throw. The model assumes both elements are present.
- Typing into a service-form input (`ServiceForm.Fill`) stands for the user's edits. The script does not perform them.
