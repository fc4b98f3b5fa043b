# Quiz questions and three state widgets, in Dafny

This project models the logic of a small React coursework application.

- The question library `src/nested.ts` has sixteen operations over an ordered list of
  `Question` records: filters, lookups, projections and aggregates, edits, and a CSV
  export. No operation changes its input: each returns a new list or value, and most of
  them work on a copy. The model
  works on Dafny sequences (module `Nested`, file `nested.dfy`).
- Module `Builtins` (`builtins.dfy`) restates the JavaScript built-ins that `Nested` calls:
  `splice` on in-range arguments, `join`, and integer `toString`. The library never splits
  a string or parses a number. `Split`, `IndexOf`, `DigitsValue` and `ParseInt` are the
  inverses of `join` and `toString`. They are defined only so that the CSV export can be
  proved to read back.
- There are three widgets, each a class with one field per `useState` cell and one method
  per button handler. A button's `disabled` condition becomes the negation of its handler's
  `requires`.
  - `CycleHoliday` (`cycle_holiday.dfy`): five holidays, two successor functions, and the emoji display.
  - `StartAttempt` (`start_attempt.dfy`): the attempts counter and the in-progress flag, with the
    Start, Stop and Mulligan buttons. A pure `Step` function gives each transition, and lemmas
    cover whole runs of clicks.
  - `ChangeType` (`change_type.dfy`): the question-type toggle and the label it shows.

The model has no executable entry point: it consists of definitions and their proofs.

Two behaviours are worth knowing:

- `toCSV([])` is the header followed by a line break, because `src/nested.ts:136` always
  appends `"\n"` after the header, even when there are no rows.
- `renameQuestionById` renames every question that has the target id. Its doc comment
  (`src/nested.ts:200-202`) speaks of "the one with the given `targetId`". The `map` at
  `src/nested.ts:210-213` changes every match, and the model follows the code.

## Model

| member | source | states |
|---|---|---|
| Nested.GetPublishedQuestions | src/nested.ts:9-15 | every kept question is published, every published question is kept, and the result is a subsequence of the input |
| Nested.PublishedMultiplicity | src/nested.ts:9-15 | each published question occurs as often as in the input and no unpublished one occurs; with the subsequence property this is "exactly the published ones, in order" |
| Nested.PublishedAppend | src/nested.ts:9-15 | the filter distributes over concatenation, so relative order is preserved |
| Nested.GetNonEmptyQuestions | src/nested.ts:22-31 | kept questions have a body, an expected answer or an option; every such question is kept; the result is a subsequence |
| Nested.NonEmptyMultiplicity | src/nested.ts:22-31 | each non-empty question occurs as often as in the input, and each empty one never |
| Nested.NonEmptyAppend | src/nested.ts:22-31 | the filter distributes over concatenation |
| Nested.IndexOfId | src/nested.ts:41-43 | `findIndex` by id: -1 iff no question has the id, otherwise the index of the first one that has it |
| Nested.FindQuestion | src/nested.ts:37-48 | None iff no question has the id; otherwise the question at the first index carrying the id |
| Nested.RemoveQuestion | src/nested.ts:54-64 | input unchanged when the id is absent; otherwise one shorter, entries before and after the first match kept in order, and putting the found question back at that index restores the input |
| Nested.GetNames | src/nested.ts:70-74 | same length, and position i holds the name of question i |
| Nested.SumPoints | src/nested.ts:79-87 | 0 on the empty list, and non-negative when every question's points are |
| Nested.SumPointsAppend | src/nested.ts:79-87 | the total of a concatenation is the sum of the totals |
| Nested.PointsSplit | src/nested.ts:92-103 | the full total equals the published total plus the unpublished total |
| Nested.SumPublishedPoints | src/nested.ts:92-103 | the published total is the full total minus the points of the unpublished questions |
| Nested.PublishedPointsBounded | src/nested.ts:92-103 | with non-negative points, the published total lies between 0 and the full total |
| Nested.ToCSV | src/nested.ts:122-137 | starts with the header line and a line break; on the empty list it is exactly that |
| Nested.CsvLines | src/nested.ts:122-137 | split on line breaks, the export gives the header and then one row per question, in order; on the empty list it gives the header and one empty line |
| Nested.CsvRowFields | src/nested.ts:126-133 | split on commas, a row gives back the id, the name, the number of options, the points and `true`/`false`, if the name has no comma |
| Nested.CsvExample | src/nested.ts:114-115 | the documented row `1,Addition,0,1,true` under the header |
| Builtins.IntToStringRoundTrip | src/nested.ts:128-131 | the decimal rendering of an integer parses back to the same integer |
| Nested.MakeAnswers | src/nested.ts:144-154 | one answer per question, in order, with the question's id, empty text, not submitted and not correct |
| Nested.PublishAll | src/nested.ts:160-165 | same length; every question is published and nothing else about it changes |
| Nested.PublishAllThenFilter | src/nested.ts:160-165 | filtering the published questions after publishAll keeps every question |
| Nested.PublishAllPoints | src/nested.ts:160-165 | after publishAll, the published total equals the full total of the input |
| Nested.AllOfType | src/nested.ts:172-179 | `every`: true iff every question has the given type |
| Nested.SameType | src/nested.ts:171-181 | true iff every two questions have the same type; true on the empty list |
| Nested.AddNewQuestion | src/nested.ts:188-197 | one longer, the input as prefix, and the blank question built from id, name and type at the end |
| Nested.RenameQuestionById | src/nested.ts:204-214 | same length; questions without the target id are unchanged, and those with it get the new name and keep every other field |
| Nested.RenameKeepsLookups | src/nested.ts:204-214 | renaming changes no id, so a lookup by any id finds the same index |
| Nested.ChangeQuestionTypeById | src/nested.ts:223-242 | only the first match changes; its type becomes the new type, its options become empty iff the new type is short answer and are kept otherwise, and its other fields are kept |
| Nested.EditOption | src/nested.ts:254-272 | only the first match changes, and only in its options: index -1 appends the new option, and an in-range index replaces that option with the length unchanged |
| Nested.DuplicateQuestionInArray | src/nested.ts:280-292 | one longer; the duplicate of the first match sits right after it, with the prefix kept, the rest shifted by one, and removing the duplicate restores the input |
| CycleHoliday.HolidayCycler.constructor | src/components/CycleHoliday.tsx:12 | the first holiday is Best Friend Day |
| CycleHoliday.HolidayCycler.AlphaSwap | src/components/CycleHoliday.tsx:14-24 | the holiday advances by the alphabetical successor |
| CycleHoliday.AlphaNextIsAlphabetical | src/components/CycleHoliday.tsx:14-24 | the successor is the holiday whose name comes next alphabetically, and the last name wraps to the first |
| CycleHoliday.HolidayCycler.DateSwap | src/components/CycleHoliday.tsx:26-36 | the holiday advances by the through-the-year successor |
| CycleHoliday.SingleCycles | src/components/CycleHoliday.tsx:14-36 | from any holiday, five steps of either button visit all five holidays and return to the start |
| CycleHoliday.SuccessorsArePermutations | src/components/CycleHoliday.tsx:14-36 | both successor functions are injective and onto, and neither has a fixed point |
| CycleHoliday.GetEmoji | src/components/CycleHoliday.tsx:38-52 | empty iff the name is none of the five holiday names; otherwise a single emoji |
| CycleHoliday.EmojiDistinct | src/components/CycleHoliday.tsx:38-52 | different holidays show different emoji |
| CycleHoliday.HolidayCycler.Shown | src/components/CycleHoliday.tsx:60 | the emoji shown for the current holiday is never empty and is a single emoji |
| StartAttempt.AttemptTracker.constructor | src/components/StartAttempt.tsx:5-6 | four attempts, quiz not begun |
| StartAttempt.AttemptTracker.Start | src/components/StartAttempt.tsx:8-18 | enabled only when not begun and attempts is not 0; begins the quiz, takes one attempt, and keeps the count non-negative |
| StartAttempt.AttemptTracker.Stop | src/components/StartAttempt.tsx:19-26 | enabled only while begun; ends the quiz and leaves the attempts alone |
| StartAttempt.AttemptTracker.TakeMulligan | src/components/StartAttempt.tsx:27-33 | enabled only when not begun; adds one attempt and leaves the flag alone |
| StartAttempt.EnabledButtons | src/components/StartAttempt.tsx:16-33 | while a quiz runs only Stop is enabled, so no click changes the count; otherwise Mulligan is enabled, Stop is not, and Start is enabled iff attempts remain |
| StartAttempt.EnabledRunsKeepInvariant | src/components/StartAttempt.tsx:16-33 | over any run of enabled clicks, every state visited has a non-negative count, and no click made while begun changes the count |
| StartAttempt.InitialRunsKeepInvariant | src/components/StartAttempt.tsx:5-33 | from the initial state, every enabled run keeps the count non-negative |
| StartAttempt.RunAttempts | src/components/StartAttempt.tsx:8-33 | after any run, the count is the start count, minus one per Start, plus one per Mulligan |
| ChangeType.TypeToggle.constructor | src/components/ChangeType.tsx:6 | the first type is short answer |
| ChangeType.Swapped | src/components/ChangeType.tsx:8-12 | the type always changes (with two types this fixes it) |
| ChangeType.SwapTwice | src/components/ChangeType.tsx:8-12 | swapping twice restores the type |
| ChangeType.TypeToggle.SwapType | src/components/ChangeType.tsx:8-12 | the stored type becomes the swapped type |
| ChangeType.Labels | src/components/ChangeType.tsx:17-18 | exactly one label is shown: "Short Answer" iff short answer, "Multiple Choice" iff multiple choice |
| ChangeType.TypeToggle.Shown | src/components/ChangeType.tsx:17-18 | the toggle shows exactly one label, and it names the stored type |

## Left out

- `makeBlankQuestion` and `duplicateQuestion` come from the module `./objects` (imported at
  `src/nested.ts:3`), which is not part of this model. `AddNewQuestion` and `DuplicateQuestionInArray` take them as function
  parameters. Their contracts talk about whatever those functions return, and assume no
  field values of the result.
- ChangeQuestionTypeById, EditOption and DuplicateQuestionInArray require the target id to be
  present. When it is absent, the code indexes the copy at -1 (`src/nested.ts:233`, `264`,
  `289`), and what happens then depends on JavaScript (a non-index property write, a
  `TypeError`, or `splice` at 0). The model does not cover that case.
- EditOption requires the option index to be -1 or in range. Other indices rely on how
  `splice` clamps and how it treats negative indices.
- JavaScript numbers are modelled as unbounded integers (ids, points and the attempts
  counter). Floating-point values, precision loss and `Number.prototype.toString` on
  non-integers are not modelled.
- Strings are modelled as sequences of Unicode code points, whereas JavaScript strings are
  sequences of UTF-16 code units. Each emoji returned by `getEmoji` therefore has length 1
  in the model (`GetEmoji`, `HolidayCycler.Shown`), where JavaScript reports length 2. The
  string order `Precedes` compares code points. On the ASCII holiday names this is the
  same as JavaScript's code-unit order.
- The React rendering is not modelled: JSX, the `Button` component, and the `useState`
  machinery (including batching of state updates). `Labels`, `Shown` and the emoji lookup
  stand for the rendered text.
- `src/components/TwoDice.tsx` is not modelled. Its logic depends on `Math.random` and floating-point `floor`.
- `src/bad-components/DoubleHalf.tsx` is not modelled. It halves by floating-point
  multiplication, and the rest is passing props between components.
- The `Question`, `Answer` and `QuestionType` declarations (`src/interfaces/`) are not part of
  this model. Their fields are taken from how `src/nested.ts` uses them.
