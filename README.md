# StateMatch quiz core, modelled in Dafny

StateMatch asks a user 30 multiple-choice questions and ranks U.S. states by
how well they match the answers. This project models the three deterministic
pieces of that site and proves what each one promises:

- **The scoring engine** (`src/lib/scoring.ts`). `calculateScores` builds a
  score table with every dataset state at 0. It then adds the per-state
  weights of each answered question's chosen choice. It turns the table into
  `{state, city, score}` records, sorts them by descending score and returns
  the first five. `validateAnswers` says whether every question has a
  non-empty answer. The two JSON datasets the source imports are parameters
  here (`states`, `questions`).
- **The quiz page's navigation** (`src/pages/Quiz.tsx`). A class
  `QuizSession` holds the current question index and the answer map, and the
  three event handlers change them. The `localStorage` save on finishing
  becomes the `saved` field.
- **The share text** (`src/lib/shareUtils.ts`). `generateShareText` lists the
  first three results under a fixed header and above a closing line naming
  the page origin. The origin is a parameter.

Files:

- `types.dfy` (`QuizTypes`): the record shapes of `src/lib/types.ts` and of
  the datasets. A choice's `weights` object is the sequence of its entries,
  in insertion order.
- `scoring.dfy` (`Scoring`): the score table `Table` (keys in insertion order
  plus their values, like a JavaScript object), the engine's steps as
  functions of the table, the imperative `CalculateScores`, and
  `ValidateAnswers`.
- `stable_sort.dfy` (`StableSort`): the `sort((a, b) => b.score - a.score)`
  step. JavaScript's sort is stable, so the model sorts by insertion. It
  proves that any stable sort by descending score gives the same sequence.
- `scoring_facts.dfy` (`ScoringFacts`): reference definitions that do not
  mention the table (`TotalWeight`, `Candidates`), and the lemmas that tie
  the engine's output to them.
- `quiz.dfy` (`Quiz`): `QuizSession`, its guards and handlers, and a client
  run `AnswerInTurn`.
- `decimal.dfy` (`Decimal`): how a template literal prints an integer.
- `share.dfy` (`Share`): `GenerateShareText` and what the text looks like.

Behaviour worth knowing:

- Ties keep table insertion order. The table lists the dataset states first,
  in dataset order, and then each weight key that is not a dataset state,
  appended when it is first written. The stable sort keeps that order among
  equal scores.
- The result has `min(5, |Candidates|)` records. The candidates are the
  dataset states together with every state named by a chosen choice's
  weights.
- `validateAnswers` needs a truthy answer, so an empty-string answer fails
  it. `canGoNext` only tests that the key is present, so an empty-string
  answer enables Next.
- The share text prints the raw score followed by `% match`.

## Model

| member | source | states |
|---|---|---|
| `Scoring.PutEffect` | src/lib/scoring.ts:22 | Writing a key gives it the new value and changes no other key; a new key goes at the end of the key order and an existing one keeps its place; the table stays well-formed |
| `Scoring.FindFirst` | src/lib/scoring.ts:17 | The `.find` both lookups use: returns nothing iff no element has the key; otherwise the first element with that key |
| `Scoring.FindChoice` | src/lib/scoring.ts:17 | Returns nothing iff no choice has the id; otherwise the first choice with that id |
| `Scoring.FindState` | src/lib/scoring.ts:29 | Returns nothing iff no state record has the code; otherwise the first record with that code |
| `Scoring.CalculateScores` | src/lib/scoring.ts:5-40 | The loops fill the table and the method returns exactly the sorted, truncated ranking `TopScores` that the lemmas below characterise |
| `Scoring.ValidateAnswers` | src/lib/scoring.ts:42-46 | True iff every question id in the dataset maps to a non-empty answer |
| `StableSort.SortByScoreDesc` | src/lib/scoring.ts:36 | The result has the input's length and never increases in score |
| `StableSort.SortByScoreDescSpec` | src/lib/scoring.ts:36 | The result is a permutation of the input, and records with equal score keep their input order (stable) |
| `StableSort.StableSortIsUnique` | src/lib/scoring.ts:36 | Any sequence that is sorted by descending score and keeps each score's input order equals the model's sort, so any stable sort gives the same ranking |
| `ScoringFacts.ZeroStatesEffect` | src/lib/scoring.ts:8-10 | Zeroing the states sets every dataset code to 0, leaves other keys alone, only appends keys, and adds exactly the dataset codes |
| `ScoringFacts.InitialTableSpec` | src/lib/scoring.ts:7-10 | Before any weight is added, every dataset state has an entry of 0 and there are no other keys; with distinct codes the keys follow dataset order |
| `ScoringFacts.AddWeightsEffect` | src/lib/scoring.ts:21-23 | Adding a choice's weights raises each key by that choice's weight for it (0 when absent); unseen weight keys start from 0 and go at the end |
| `ScoringFacts.AccumulateEffect` | src/lib/scoring.ts:13-24 | Processing the questions raises each key by the summed chosen weights and adds exactly the keys those choices name |
| `ScoringFacts.FinalTableSpec` | src/lib/scoring.ts:7-24 | Each final score is the sum over questions of the chosen choice's weight; the keys are the dataset states followed by the other named states, which are not dataset states |
| `ScoringFacts.TopScoresLength` | src/lib/scoring.ts:39 | The result has `min(5, number of candidates)` records |
| `ScoringFacts.TopScoresEntries` | src/lib/scoring.ts:27-36 | Each record is a different candidate, with its summed weight as score and the first city of its state record (or "") as city; scores never increase |
| `ScoringFacts.TopScoresMaximal` | src/lib/scoring.ts:36-39 | A candidate left out of the result scores no higher than any record in it, so the result is a prefix of the full ranking |
| `ScoringFacts.TopScoresTies` | src/lib/scoring.ts:27-39 | For each score, the returned records with that score are the first records with that score in table insertion order |
| `ScoringFacts.EmptyAnswerIgnored` | src/lib/scoring.ts:14-15 | An empty-string answer gives the same result as no answer |
| `ScoringFacts.DanglingAnswerIgnored` | src/lib/scoring.ts:17-18 | An answer naming no choice of its question gives the same result as removing it |
| `ScoringFacts.AnswerChangeDelta` | src/lib/scoring.ts:13-24 | With distinct question ids, changing one answer changes each state's score by the new choice's weight minus the old one's |
| `ScoringFacts.ValidatedAnswersAllConsidered` | src/lib/scoring.ts:42-46 | When validation passes, no question is skipped for a missing answer; only a dangling choice id can still be skipped |
| `ScoringFacts.TwoStateExample` | src/lib/scoring.ts:5-40 | Two states and one question: the chosen choice's state ranks first with 5, the other follows with 0 |
| `Quiz.QuizSession.constructor` | src/pages/Quiz.tsx:17-18 | A session starts at question 0 with no answers and nothing saved |
| `Quiz.QuizSession.HandleAnswer` | src/pages/Quiz.tsx:29-34 | Sets the current question's answer and leaves every other entry unchanged; no entry is removed; Next becomes enabled |
| `Quiz.QuizSession.HandleNext` | src/pages/Quiz.tsx:36-45 | On the last question, keeps the index and saves the answers unchanged; otherwise moves one question on; the index stays in range; when Next is enabled and every earlier question is answered, that still holds afterwards, and on finishing every question id is in the saved map |
| `Quiz.QuizSession.HandleBack` | src/pages/Quiz.tsx:47-51 | Moves back one question when not at the first, and otherwise changes nothing; the index stays in range |
| `Quiz.AnswerInTurn` | src/pages/Quiz.tsx:24-51 | Answering each question in turn and pressing Next after each saves exactly those answers, which pass `validateAnswers` when none is empty |
| `Decimal.IntToString` | src/lib/shareUtils.ts:9 | A printed integer is non-empty and starts with '-' iff negative; every other character is a digit; there is no leading zero, and the text is "0" exactly for zero |
| `Decimal.IntRoundTrip` | src/lib/shareUtils.ts:9 | Reading a printed integer back gives the integer |
| `Share.GenerateShareText` | src/lib/shareUtils.ts:3-15 | The loop builds exactly the text `ShareText`: header, one rank line `#i state - score% match` per record among the first three, then the closing line with the origin |
| `Share.ShareTextLayout` | src/lib/shareUtils.ts:4-12 | The text starts with the exact header and ends with "\nFind your perfect state at " and the origin; between them are the rank lines of the first min(3, n) records, with one line break per record |
| `Share.ShareTextUsesOnlyTopThree` | src/lib/shareUtils.ts:4-9 | The text depends only on the state and score of the first three records; cities and later records do not change it |

## Left out

- Other fields of a state record (highlights, politics, climate and the
  rest): the core reads only `state_code` and `top_cities`.
- Object key order for integer-like keys: a JavaScript object lists keys such
  as "12" before all others. The model keeps plain insertion order, which is
  what happens for two-letter state codes.
- Non-integer weights and scores: the datasets hold integer weights, and the
  model uses unbounded integers, so `Number` rounding is not modelled.
- Inherited object keys: an answer map or table key such as `"constructor"`
  would read as an inherited property in JavaScript.
- `Decimal.IntToString`: prints every integer in plain decimal. JavaScript
  switches to exponent notation from 10^21, which scores never reach.
- The `localStorage` write, PostHog `capture` calls and `navigate` in the quiz
  page: external side effects. The save is the `saved` field.
- Rendering: the JSX of the quiz page, progress bar, result pages and share
  image. The progress and match percentages are floating-point divisions
  rounded with `Math.round`.
- An empty questions dataset: the page reads `question.id` of a missing
  question and throws, so `QuizSession` requires at least one question id.
- Leaving the page after finishing: the source navigates to the results page
  and the quiz page unmounts. The model's session accepts further handler
  calls, and a later finish overwrites `saved`.
- The order among the non-dataset keys of the final table is fixed by the
  fold `FinalTable` itself (each key appended when first written); no lemma
  restates it question by question.
- React's scheduling of state updates: each handler runs on the state left by
  the previous one.
- `getShareUrl` and `isWebShareSupported`: they only query the browser.
- The share dialog, checkout page and the two serverless functions: clipboard,
  timers, network calls and foreign services.
- `Scoring.CalculateScores`: the `.map`, `.find` and `.sort` library calls are
  functions (`Records`, `FindFirst`, `SortByScoreDesc`). Only
  the source's `forEach` loops are loops in the method.
