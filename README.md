# Situation-puzzle guess pipeline — a Dafny model

This project models the core of a "situation puzzle" game. A player sends a
statement about a hidden story. A language model classifies the statement as
TRUE, FALSE, UNRELATED (IRRELEVANT in the older server code) or ERROR. A TRUE
statement is then checked a second time to see whether it resolves the whole
story, which turns it into GAMEOVER. The client keeps a per-puzzle guess log
and the revealed story in browser storage. Its single page is a small state
machine with an in-flight flag, a PENDING placeholder and a draft cache.

Modules, one per source file or shared concept:

- `Common` (common.dfy): `Option`, `Outcome` (a resolved value or a thrown
  rejection), and JavaScript's `includes` with a proof that it finds exactly
  the occurrences of the substring.
- `ChatOracle` (chat_oracle.dfy): the chat-completion request and reply.
  The language model is an oracle, a total function `ask: Request -> Reply`.
  A reply is either a rejected call or a completion with zero or more choices.
  The module also has the two ways the server code reads a reply.
- `PuzzleService` (puzzle_service.dfy): the v1 service. It has the result
  enum and its codes, the catalogue lookup, the user turn, the exact-match
  label table, and `MakeGuess` as a step-by-step method. The method returns
  the outcome and a ghost trace of the requests it issued, in order.
- `LegacyPuzzles` (puzzle_model.dfy): the older `puzzles` namespace. It runs
  the same pipeline with the IRRELEVANT label, the "gpt-4" model and English
  turns. Its `getPuzzle`/`getAllPuzzles` are the same expressions as the v1
  ones, so `PuzzleService.GetPuzzle` models both.
- `StorageKeys` (storage_keys.dfy): the storage keys `p-<id>-guesses` and
  `p-<id>-story`. It prints integer ids in decimal, as a template literal
  prints a number whose magnitude is below 10^21, and proves that keys of
  distinct puzzles never collide.
- `ClientModel` (client_model.dfy): the client result enum with PENDING, and
  the storage as a class over a `map<string, Item>`. It has the pure
  specification functions (`LoadGuesses`, `LoadStory`, `Recorded`, `Cleared`)
  and the lemmas about them.
- `ClientApp` (app.dfy): the page state as a class `App` whose methods are the
  handlers and effects. The module-level draft map is its own object,
  `DraftCache`.

The model follows the code as written, including these behaviours, which a
player of the game would not expect:

- A transport failure of the primary query, or of the termination query,
  propagates: neither server file's `makeGuess` catches anything. It does not
  become ERROR, and a failed termination query does not leave the TRUE result
  in place. In the model both are `Threw`.
- The code reads the primary reply as `resp.choices[0].message?.content`,
  with no `?.` after the index. A completion without choices therefore throws
  (a TypeError) instead of mapping to ERROR. The termination reply is read
  with `?.` at every step, so there an empty completion just means "not
  affirmed".
- The termination check is a substring test. Any answer that contains
  "TRUE" counts as affirmed, and that includes an answer such as "NOT TRUE".
- The page is meant to show at most one PENDING guess per puzzle. When a
  submission fails, the client leaves its PENDING placeholder in the list,
  so the next submission shows two (`ClientApp.App.RetryAfterFailure`).

## Model

| member | source | states |
|---|---|---|
| `Common.IncludesIffOccurs` | src/v1/services/puzzle.service.ts:82 | `includes` holds exactly when the substring occurs at some index |
| `ChatOracle.PrimaryContent` | src/v1/services/puzzle.service.ts:38-55 | a rejected call or a completion with no choices throws; otherwise the first choice's optional content is read |
| `ChatOracle.TerminationAffirms` | src/v1/services/puzzle.service.ts:82 | affirmed iff there is a first choice with content in which "TRUE" occurs |
| `PuzzleService.Code` | src/v1/services/puzzle.service.ts:14-20 | every result's code is one of 0, 1, 2, 4, 500 |
| `PuzzleService.FromCode` | src/v1/services/puzzle.service.ts:14-20 | a code reads back to a result iff it is one of the five codes, and to the result carrying that code |
| `PuzzleService.CodesDistinct` | src/v1/services/puzzle.service.ts:14-20 | each result survives the trip through its code; distinct results have distinct codes |
| `PuzzleService.GetPuzzle` | src/v1/services/puzzle.service.ts:28-30 | null iff no catalogue puzzle has the id; otherwise the first catalogue puzzle with that id |
| `PuzzleService.GetAllPuzzles` | src/v1/services/puzzle.service.ts:32-34 | the listing holds exactly the ids the lookup finds |
| `PuzzleService.LookupWithinListing` | src/models/puzzle.model.ts:27-29 | the legacy `getPuzzle` and `getAllPuzzles` are the same expressions as the v1 ones, which `GetPuzzle` and `GetAllPuzzles` model; a found puzzle is in the listing, and any listed id is found |
| `PuzzleService.UserTurn` | src/v1/services/puzzle.service.ts:44 | the turn is `故事：` + story + `\n陈述：` + statement: the story and the statement sit at fixed offsets |
| `PuzzleService.UserTurnDeterminesGuess` | src/v1/services/puzzle.service.ts:44 | for one story, equal turns carry equal statements |
| `PuzzleService.PrimaryRequest` | src/v1/services/puzzle.service.ts:38-50 | model "gpt-4-0613", the classification preamble, temperature and both penalties 0, and a user turn carrying the story and the statement at fixed offsets |
| `PuzzleService.TerminationRequest` | src/v1/services/puzzle.service.ts:66-78 | the primary request with the termination preamble in its place, and nothing else changed; it never equals the primary request |
| `PuzzleService.Classify` | src/v1/services/puzzle.service.ts:51-64 | exactly 'TRUE', 'FALSE' and 'UNRELATED' map to TRUE, FALSE and UNRELATED; any other text, or no content, maps to ERROR; never GAMEOVER |
| `PuzzleService.MakeGuess` | src/v1/services/puzzle.service.ts:36-87 | the primary query comes first, and at most one more follows; the termination query is issued iff the primary answer is exactly "TRUE" and has the same user turn; GAMEOVER iff that answer contains "TRUE"; otherwise a TRUE stays TRUE; FALSE, UNRELATED and ERROR pass through; a failed call throws |
| `LegacyPuzzles.Code` | src/models/puzzle.model.ts:19-25 | every legacy result's code is one of 0, 1, 2, 4, 500 |
| `LegacyPuzzles.SameCodesAsService` | src/models/puzzle.model.ts:19-25 | each legacy code reads back as the v1 result of the same name, except that IRRELEVANT reads as UNRELATED |
| `LegacyPuzzles.PrimaryTurn` | src/models/puzzle.model.ts:39 | `Narrative: ` + story + `\nStatement: ` + statement: the story and the statement sit at fixed offsets |
| `LegacyPuzzles.TerminationTurn` | src/models/puzzle.model.ts:66 | `Narrative：` + story + `\nStatement：` + statement, with full-width colons: the story and the statement sit at fixed offsets |
| `LegacyPuzzles.TurnsDiffer` | src/models/puzzle.model.ts:39-66 | the primary turn (`Narrative: `) and the termination turn (`Narrative：`) always differ |
| `LegacyPuzzles.PrimaryRequest` | src/models/puzzle.model.ts:33-45 | model "gpt-4", the classification preamble, temperature and both penalties 0, and the primary turn's layout |
| `LegacyPuzzles.TerminationRequest` | src/models/puzzle.model.ts:61-73 | model "gpt-4", the termination preamble, zero sampling parameters, and a user turn that differs from the primary one |
| `LegacyPuzzles.Classify` | src/models/puzzle.model.ts:46-59 | exactly 'TRUE', 'FALSE' and 'IRRELEVANT' map to their results; everything else, including 'UNRELATED', maps to ERROR |
| `LegacyPuzzles.MakeGuess` | src/models/puzzle.model.ts:31-82 | the same gating and results as the v1 pipeline, over the legacy labels, model and turns |
| `StorageKeys.DigitChar` | client/src/model.ts:34 | a digit below ten prints as the digit character of that value |
| `StorageKeys.Decimal` | client/src/model.ts:34 | an id's numeral is a non-empty string of digits, with no leading zero unless the number is 0 |
| `StorageKeys.DecimalRoundTrip` | client/src/model.ts:34 | reading the printed numeral back gives the number |
| `StorageKeys.IdText` | client/src/model.ts:34 | the text is non-empty and starts with a minus sign exactly for negative ids |
| `StorageKeys.IdTextInjective` | client/src/model.ts:34 | distinct ids print differently, negative ids included |
| `StorageKeys.GuessesKey` | client/src/model.ts:34-44 | the key, written at line 34 and read at line 44, splits into `p-`, the id text and `-guesses` |
| `StorageKeys.StoryKey` | client/src/model.ts:36-52 | the key, written at line 36 and read at line 52, splits into `p-`, the id text and `-story` |
| `StorageKeys.KeysSeparate` | client/src/model.ts:34-57 | two puzzles share a log key or a story key only if they are the same puzzle; a log key is never a story key |
| `ClientModel.Code` | client/src/model.ts:3-10 | every client result's code is one of 0, 1, 2, 4, 500, -1 |
| `ClientModel.FromCode` | client/src/model.ts:3-10 | a code reads back to a client result iff it is one of the six codes |
| `ClientModel.ServerResultsSettled` | client/src/model.ts:3-10 | every result either server sends reads on the client as a result other than PENDING |
| `ClientModel.LoadGuesses` | client/src/model.ts:43-49 | a missing entry loads as [] |
| `ClientModel.LoadStory` | client/src/model.ts:51-53 | a missing entry loads as null |
| `ClientModel.Recorded` | client/src/model.ts:30-37 | after an ok response the log is the old log plus the response's guess; the story changes only for a truthy story |
| `ClientModel.Cleared` | client/src/model.ts:55-58 | after clearing, the log is [] and the story is null |
| `ClientModel.ClearIdempotent` | client/src/model.ts:55-58 | clearing twice equals clearing once |
| `ClientModel.OnlyOwnKeysChange` | client/src/model.ts:34-57 | recording and clearing change no key other than the puzzle's own two |
| `ClientModel.OtherPuzzlesUntouched` | client/src/model.ts:30-57 | recording or clearing one puzzle leaves every other puzzle's log and story as they were |
| `ClientModel.RecordedWellFormed` | client/src/model.ts:34-37 | recording keeps every log key holding a list and every story key holding text |
| `ClientModel.ClearedWellFormed` | client/src/model.ts:55-58 | clearing keeps the store well formed |
| `ClientModel.GuessesOfAt` | client/src/model.ts:33-34 | the i-th guess of a run of responses is the i-th response's guess |
| `ClientModel.LogAfterRecords` | client/src/model.ts:30-49 | after responses g1..gn, the loaded log is the old log followed by exactly g1..gn in order |
| `ClientModel.StoryAfterRecords` | client/src/model.ts:35-53 | after a run of responses, the loaded story is the last truthy story they carried, else the old one |
| `ClientModel.LastStoryPresent` | client/src/model.ts:35-37 | a story remains iff there was one before or some response carried a truthy story |
| `ClientModel.ReplayAfterClear` | client/src/model.ts:30-58 | after a clear, replaying responses loads exactly their guesses, and a story iff one of them carried a truthy story |
| `ClientModel.LocalStore.GetGuessesOfPuzzle` | client/src/model.ts:43-49 | returns the stored list, or [] for a missing or empty entry |
| `ClientModel.LocalStore.GetStoryOfPuzzle` | client/src/model.ts:51-53 | returns the stored story or null |
| `ClientModel.LocalStore.MakeGuess` | client/src/model.ts:20-41 | a rejected or non-ok response throws and leaves storage unchanged; an ok one returns the body and leaves storage as `Recorded` |
| `ClientModel.LocalStore.ClearPuzzle` | client/src/model.ts:55-58 | storage becomes `Cleared` for the puzzle |
| `ClientApp.WithGuide` | client/src/App.tsx:103-108 | the result lists the guide id; a list that already holds id -1 is returned unchanged, and any other list gets the guide prepended |
| `ClientApp.WithGuideIdempotent` | client/src/App.tsx:103-108 | inserting the guide twice is inserting it once |
| `ClientApp.Draft` | client/src/App.tsx:90 | the draft is empty iff none is cached or the cached one is empty; otherwise it is the cached draft |
| `ClientApp.FindGameOver` | client/src/App.tsx:83 | null iff no guess is GAMEOVER; otherwise the first guess judged GAMEOVER |
| `ClientApp.DraftCache.constructor` | client/src/App.tsx:13 | the draft map starts empty |
| `ClientApp.App.InputEnabled` | client/src/App.tsx:205-213 | the input box and the submit button are enabled only when no guess is in flight and no story is set; a story set to the empty text still disables them |
| `ClientApp.App.constructor` | client/src/App.tsx:17-22 | no puzzles, no selection, no guesses, no story, not processing, empty draft |
| `ClientApp.App.OnInputChange` | client/src/App.tsx:26-31 | with a puzzle selected, the draft and its cache entry become the input; without one, nothing changes |
| `ClientApp.App.SubmitGuess` | client/src/App.tsx:33-50 | a no-op while processing, with no puzzle or the guide selected, or with an empty draft; otherwise sets processing, empties the draft and its cache entry, and appends the draft as PENDING |
| `ClientApp.App.OnResponse` | client/src/App.tsx:51-61 | on success the list is the pre-submit list plus the server's guess, and a truthy story is shown; on failure the list and story stay; processing ends either way |
| `ClientApp.App.SubmitAndAwait` | client/src/App.tsx:33-61 | submit then response: no submission exactly under the guard of line 34, with nothing changed; otherwise the draft and its cache entry are emptied, processing ends, and the placeholder is replaced by the server's guess (with storage recorded and a truthy story shown) on success, or remains PENDING on failure |
| `ClientApp.App.RetryAfterFailure` | client/src/App.tsx:26-61 | after a failed submission and a new draft, a second submission is accepted and the list ends with two PENDING guesses |
| `ClientApp.App.Restart` | client/src/App.tsx:64-70 | the list is emptied, the story hidden, and the selected puzzle's storage cleared |
| `ClientApp.App.SelectPuzzle` | client/src/App.tsx:78-94 | on a new selection the stored log is shown, the story is loaded iff the log holds a GAMEOVER (else null), and the cached draft or "" is restored |
| `ClientApp.App.LoadPuzzles` | client/src/App.tsx:96-111 | the fetched list (or the current one on failure) with the guide inserted; the guide is selected, with its stored log, its story iff that log holds a GAMEOVER, and its cached draft; when the guide was already selected, the list and story stay |
| `ClientApp.App.SubmitFromInput` | client/src/App.tsx:72-76 | the Enter key, and likewise the submit button of lines 209-214: no submission, and nothing changed, iff the controls are disabled or the guard of line 34 holds; otherwise the submission of `submitGuess` with its new state |
| `ClientApp.App.TypeInInput` | client/src/App.tsx:196-207 | typing changes nothing while the input is disabled or no puzzle is selected; otherwise the draft and its cache entry become the input |

## Left out

- The language model and the prompt file: `ask` stands for the chat service. The few-shot preambles `starter` and `termination_starter` are named but their text is not modelled.
- Nondeterminism of the service across calls: `ask` is a function, so one evaluation sees one fixed answer per request. The two requests always differ in their preamble.
- `StorageKeys.IdText`: a puzzle id is a JavaScript number; the model takes it as an integer and prints it in plain decimal, which is what a template literal does only below 10^21 in magnitude (larger numbers print in exponent form, fractional ones with a decimal point).
- The HTTP layer: the route handlers, the OpenAPI document, the guess route in src/index.ts (commented out), Prisma and Express wiring. The server's story field of the response is therefore taken as given by the client model.
- `fetch`, `resp.json()` and `JSON.stringify`/`JSON.parse`: a response is a `FetchResult`, and a stored log is the list it encodes (`Item.Json`), so parsing gives back what was stored.
- Storage entries written by anything other than these operations: the store is kept `WellFormed` (a log key holds a list or the empty text, a story key holds text). A malformed log entry, on which `JSON.parse` would throw, is not modelled.
- The client's `getAllPuzzles` fetch: its result is the `fetched` parameter of `ClientApp.App.LoadPuzzles` (None for a failed fetch).
- Rendering, CSS, focus handling, and the in-place `puzzles.sort` done while rendering the list: UI only.
- Asynchrony: each effect and callback runs as one step. The two continuations of the selection effect are merged into `SelectPuzzle`. Interleavings, such as a response arriving after another puzzle was selected, are possible only through the captured `Submission`.
- `ClientApp.App.SelectPuzzle`: React reruns the effect when the puzzle object changes; the model compares puzzle values. The mount-time run with no selection only empties the draft, which the constructor already does.
- Presentational components (`Guess.tsx`, `PuzzleSelect.tsx`) and the API type declarations, apart from the shapes used here.
