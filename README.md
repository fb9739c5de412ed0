# Guessing-game room engine, modelled in Dafny

This project models the per-room engine of a multiplayer trivia game server
(`src/game.service.js`). Each room has one `GameService`. It holds the room's
participants (`User` records) in join order and the current game master. It
also holds a guess ledger (participant id to attempt count, at most 3 per
question cycle) and the current question. The game master asks a `Question`.
The other participants guess. A right guess earns 10 points and passes the
game-master role to the next participant in join order, wrapping around.

Modules:

- `Errors` (`errors.dfy`): what an operation throws, as a value. A
  `GameError` of a given kind, or a JavaScript `TypeError` with its cause.
- `Users` (`users.dfy`): the participant record and its updates.
- `Questions` (`questions.dfy`): questions, their construction and grading,
  and the JavaScript values the engine can hold as "the question".
- `KeyOrder` (`key_order.dfy`): the insertion order of a JavaScript `Map`'s
  keys. Also the round-robin walk (`NextKey`, `Rotate`) that passes the
  game-master role, with its properties.
- `Game` (`game.dfy`): the `GameService` class. Its fields are the ones the
  source updates in place. Its methods carry the source's guards and updates.
- `Scenarios` (`scenarios.dfy`): concrete games. They replay the situations of
  `src/game_service.spec.js` and the inputs behind the findings below.

Which engine is modelled: `AddQuestion` and `AnswerQuestion` are the engine
**as written**, including its bugs. `AddQuestionFixed` and
`AnswerQuestionFixed` are a **corrected** engine that removes the five
problems listed under "Findings". The other operations have no bug and exist
once.

How the source's state is represented:

- The `users` `Map` is a `map<Id, User>` plus `order`, the insertion order of
  its keys. `set` on a known id keeps that id's place (`KeyOrder.KeysAfterSet`).
- `gameMaster` is a `User` record, as in the source, and not just an id. The
  source keeps a reference to the record it was given. If `addUser` later
  replaces that id's record, `scoreboard` still reports the old one. The model
  does the same.
- `question` is a `QuestionValue`: `Null`, a `Question` instance, or any other
  value. The source stores whatever it is given.
- The class invariant `Valid()` holds after construction and after every
  operation. It says that `order` has no repeats and lists exactly the keys of
  `users`, that each record is stored under its own id, that the game
  master's id is a key of `users`, and that every ledger entry belongs to a
  participant and is at most 3.
- Two further properties hold in every state the engine as written reaches
  from a new room. `LedgerAtZero`: every ledger entry reads 0. The
  constructor establishes it, `AnswerQuestion` keeps it, and `AddQuestion`,
  `AddUser` and `UpdateGameMaster` do not touch the ledger. So, by
  `GuessesNeverUsedUp`, the guard at line 27 never fires. `AllTallied`: every
  record, the game master's included, scores 10 points per correct answer.
  It holds for a room whose records were made by `NewUser`, and every
  operation keeps it, provided `AddUser` is given tallied records.

## Model

| member | source | states |
|---|---|---|
| `Users.NewUser` | src/game.service.js:92-100 | A new participant is online with score, attempts and correct answers at 0, so its score matches its correct answers |
| `Users.CountAttempt` | src/game.service.js:35 | Counting an attempt adds one to the attempt count and leaves every other field as it was, so a record whose score matched its correct answers still does |
| `Users.Credit` | src/game.service.js:42-43 | A credit adds exactly 10 points and one correct answer and leaves every other field as it was, so the score keeps matching 10 per correct answer |
| `Questions.Question.IsCorrectAnswer` | src/game.service.js:87-89 | Strict equality: a guess is right exactly when it is a string equal to the stored answer; a value that is not a string is never right |
| `Questions.MakeQuestion` | src/game.service.js:79-85 | Building a question succeeds exactly when both text and answer are strings, and then stores them; otherwise it fails with `InvalidQuestion` |
| `Questions.AcceptsExactlyItsAnswer` | src/game.service.js:87-89 | A question built from answer `a` accepts a guess exactly when the guess is the string `a`; a non-string such as the number 4 is refused |
| `Questions.AtMostOneCorrectAnswer` | src/game.service.js:87-89 | Grading depends only on the question and the guess: two accepted guesses are equal, and both are the stored answer |
| `KeyOrder.IndexOf` | src/game.service.js:65 | `indexOf` returns -1 exactly when the id is absent; otherwise it returns the first position holding the id |
| `KeyOrder.KeysAfterSet` | src/game.service.js:54 | After `Map.set`, the old key order is a prefix of the new one, the keys are the old keys plus the set one, and the order gains no repeats |
| `KeyOrder.NextKey` | src/game.service.js:63-67 | The next game master is always a key of the room; a current id that is not a key (index -1) is followed by the first key |
| `KeyOrder.NextKeyAt` | src/game.service.js:65-66 | The id at position `i` is followed by the id at `i + 1`, the last by the first, and in a one-member room by itself |
| `KeyOrder.RotateAt` | src/game.service.js:62-68 | `k` rotations (up to one round) from position `i` reach position `i + k`, wrapped around the join order |
| `KeyOrder.RotateAdd` | src/game.service.js:62-68 | `a` rotations followed by `b` rotations are `a + b` rotations |
| `KeyOrder.FullRoundReturns` | src/game.service.js:62-68 | As many rotations as there are participants give the role back to where it started |
| `KeyOrder.RoundIsAPeriod` | src/game.service.js:62-68 | The sequence of game masters repeats with a period of one round |
| `KeyOrder.EveryKeyGetsATurn` | src/game.service.js:62-68 | From any game master, every participant gets the role within one round, whatever their status |
| `KeyOrder.NoKeyTwiceInARound` | src/game.service.js:62-68 | Within one round no participant is game master twice |
| `Game.Players` | src/game.service.js:73 | The players list has one record per key, in join order |
| `Game.GameService.constructor` | src/game.service.js:3-9 | A new room has only its creator, who is game master; the ledger is empty, the question is null, and the invariant holds. Every ledger entry reads 0, and a creator whose score matches 10 per correct answer makes a room where every record does |
| `Game.GameService.GuessesNeverUsedUp` | src/game.service.js:27 | While every ledger entry reads 0, the used-up-guesses guard lets every participant through |
| `Game.GameService.AddQuestion` | src/game.service.js:11-22 | As written: fails with `NoUserGiven` without a user and with `NotTheGameMaster` for anyone but the game master; otherwise it stores any value as the question. Only `question` can change, and a failure changes nothing |
| `Game.GameService.AddQuestionFixed` | src/game.service.js:11-22 | Corrected: as `AddQuestion`, except that a value that is not a `Question` fails with `InvalidQuestion` and nothing is stored |
| `Game.GameService.AnswerQuestion` | src/game.service.js:24-51 | As written: a full ledger entry or a guess from the game master throws a `TypeError`, checked in that order before any change. An unknown id throws a `TypeError` and changes nothing. A first attempt counts once and opens a ledger entry at 0, even when no question follows (then a `TypeError`). A right guess returns true, credits exactly that record, empties the ledger and passes the role to the next key, and the question stays. A wrong guess returns false and changes nothing else. No ledger count is ever raised: each entry is 0 or what it was, so a ledger whose entries all read 0 still does afterwards. Records that scored 10 per correct answer still do |
| `Game.GameService.CountAndGradeAsWritten` | src/game.service.js:25-50 | As written, past the two guards: an unknown id throws a `TypeError` and changes nothing; otherwise the guess is counted if it is the first one and then graded, with the outcomes `AnswerQuestion` states |
| `Game.GameService.FirstGuessAsWritten` | src/game.service.js:34-50 | As written, a first guess: the attempt is counted and a ledger entry opened at 0 before grading; no question throws a `TypeError` and keeps that change; a right guess credits the counted record, empties the ledger and passes the role on; a wrong guess keeps the entry at 0 |
| `Game.GameService.GradeAsWritten` | src/game.service.js:40-50 | As written, grading a counted guess: no question throws a `TypeError` and a wrong guess returns false, both changing nothing (the incremented count is local); a right guess is rewarded. The participants stay the same, ledger entries stay at 0 if they were, and tallied records stay tallied |
| `Game.GameService.AnswerQuestionFixed` | src/game.service.js:24-51 | Corrected: `MaxGuessesReached`, then `IsTheGameMaster`, then `NoActiveQuestion`, then `UnknownUser`, all before any change, and every failure changes nothing. A wrong guess raises the guesser's count by one. A right guess is credited, empties the ledger, retires the question and passes the role on. Ledger counts stay at most 3. Records that scored 10 per correct answer still do |
| `Game.GameService.GradeGuess` | src/game.service.js:34-50 | Corrected grading of an admitted guess: the first attempt is counted once; right means credit, empty ledger, no question and next game master; wrong means count plus one |
| `Game.GameService.CountFirstAttempt` | src/game.service.js:34-38 | A first attempt raises only that participant's attempt count by one and opens their ledger entry at 0; the participants stay the same and an all-zero ledger stays all zero |
| `Game.GameService.RewardCorrectAnswer` | src/game.service.js:42-45 | A right answer credits only that participant's record, empties the ledger and makes the next key in join order game master; with a tallied record, a room of tallied records stays tallied |
| `Game.GameService.AddUser` | src/game.service.js:53-55 | Insert or replace by id: a new id goes last in join order, a known id keeps its place with the new record, and nothing is removed; adding a tallied record to a tallied room keeps it tallied |
| `Game.GameService.UpdateGameMaster` | src/game.service.js:62-68 | The role moves from position `i` to position `i + 1` in join order, wrapping from last to first; in a one-member room it stays with the same id. A tallied room stays tallied |
| `Game.GameService.Scoreboard` | src/game.service.js:70-75 | The standings hold the game master record and every participant exactly once, in join order |
| `Scenarios.TwoPlusTwo` | src/game_service.spec.js:490-496 | The sample question accepts "4" and refuses "5" |
| `Scenarios.ThreePlayerRoom` | src/game_service.spec.js:252-259 | After two joins the room holds exactly gm1, p1, p2 in that order, with fresh records, gm1 as game master, no ledger and no question |
| `Scenarios.RotationOrder` | src/game_service.spec.js:316-342 | gm1 to p1 to p2 and back to gm1; a one-member room keeps gm1 |
| `Scenarios.RejoinKeepsPlace` | src/game.service.js:53-55 | Joining again as p1 replaces the record and keeps the order gm1, p1, p2 |
| `Scenarios.WrongGuessesNeverRunOut` | src/game_service.spec.js:396-412 | As written: after three wrong guesses the ledger still reads 0, and the fourth guess is graded (true) instead of refused |
| `Scenarios.FourthGuessRefused` | src/game_service.spec.js:396-412 | Corrected: three wrong guesses bring the ledger to 3 and the fourth guess fails with `MaxGuessesReached` |
| `Scenarios.MasterAnswersAsWritten` | src/game_service.spec.js:204-211 | As written: the game master's own guess throws a `TypeError` (the error class is called without `new`) |
| `Scenarios.MasterAnswersFixed` | src/game_service.spec.js:204-211 | Corrected: the game master's own guess fails with `IsTheGameMaster` |
| `Scenarios.GuessWithoutQuestion` | src/game.service.js:34-40 | As written: a guess with no question throws a `TypeError`, but p1's attempt has already been counted and a ledger entry opened |
| `Scenarios.GuessWithoutQuestionFixed` | src/game.service.js:34-40 | Corrected: the same guess fails with `NoActiveQuestion` and p1's record and the ledger are untouched |
| `Scenarios.NonQuestionAccepted` | src/game_service.spec.js:111-120 | As written: a non-question value is accepted, and the next guess throws a `TypeError` on it |
| `Scenarios.NonQuestionRefused` | src/game_service.spec.js:111-120 | Corrected: a non-question value fails with `InvalidQuestion` and the question stays null |
| `Scenarios.SolvedQuestionWonTwice` | src/game.service.js:40-46 | As written: after p1 solves the question, p2 answers the same question and is also credited 10, and the role moves on a second time to p2 |
| `Scenarios.SolvedQuestionRetired` | src/game.service.js:40-46 | Corrected: after p1 solves the question, p2's answer fails with `NoActiveQuestion`, p2 scores nothing and p1 stays game master |
| `Scenarios.WrongThenRight` | src/game_service.spec.js:374-394 | Corrected: p1's wrong guess returns false with ledger 1; p2's right guess returns true, p2 has score 10 and 1 correct, and p1 becomes game master |

## Where the design and the code differ

The model follows the code. The system's design describes more than the code does:

- A timed question with a timeout callback. There is none.
- Refusing a second question while one is active. The code never refuses it.
- Requiring at least two participants before a question.
- Clearing the ledger when a question is added.
- `userLeaveRoom`, `userDisconnected`, `updateUserName` and `nextQuestion`.
  These do not exist in the engine, although its tests call them.

None of these is modelled. The design also says that a right answer clears the
question and that a wrong guess is entered in the ledger. The code does neither.
The as-written members follow the code, and the corrected members follow the
design on these two points.

The design checks "no active question" first, then "is game master", then
"max guesses". The code checks the ledger first, then the game master, and
grades without looking for a question first. `AnswerQuestion` keeps the code's
order. `AnswerQuestionFixed` keeps the code's two guards first, then checks the
question and the participant, all before any change.

## Left out

- The HTTP server, socket wiring, environment loading and logging
  (`index.js`, `src/game.handler.js`, `src/chat.handler.js`, `src/app.js`):
  these are transport and I/O. The room-code generator uses floating-point
  randomness.
- `src/Response.js`: a message envelope with no behaviour of the engine.
- `updateUser` (src/game.service.js:57-60): it writes a plain property on the
  `Map` object, not a `Map` entry, and no operation reads that property.
  So it has no effect on the modelled state.
- `User.toString`, the `EVENTS` and `USER_STATUS` constant tables and the
  `GameError` class: these are display, constants and a plain error subclass.
  The statuses are the `Status` datatype, and errors are `Errors.Error` values.
- The console logging of a right answer (line 41): output only.
- Aliasing with callers: the source shares `User` objects with its callers, so
  a caller that writes to a record it holds changes the room. The model's
  records are values. It captures every change the engine makes, but not
  writes from outside.
- Scores and counters are JavaScript numbers. The model uses unbounded
  integers, so it does not capture precision loss beyond 2^53.
- `AddQuestion` takes the user as an id or nothing (`undefined`). A `null`
  user, which throws a `TypeError` when its id is read, is not modelled.
- `AnswerQuestion` takes the guesser's id. A missing user object, which throws
  when its id is read at line 25, is not modelled.
- A non-`Question` value that has its own `isCorrectAnswer` method would be
  graded by that method. The model treats every non-`Question` value as one
  that throws.
- `roomId` can be any value in the source. Here it is a string, and no
  operation reads it.

## Findings

| source | as written | input that shows it | evidently intended | confidence | as-written member | corrected member |
|---|---|---|---|---|---|---|
| src/game.service.js:48 | A wrong guess increments a local copy of the count. The ledger entry stays at 0 in every reachable state (`LedgerAtZero`, kept by `AnswerQuestion`), so the 3-guess guard at line 27 never fires (`GuessesNeverUsedUp`) | Room gm1 and p1, question "What is 2+2?" with answer "4". p1 guesses "1", "2", "3", then "4": the ledger reads 0 and the fourth guess returns true | Each wrong guess is entered in the ledger, and the fourth guess fails with "maximum guesses reached" | high; not executed | `Scenarios.WrongGuessesNeverRunOut` | `Game.GameService.AnswerQuestionFixed` |
| src/game.service.js:27-32 | `GameError(...)` is called without `new`, so both guards throw a `TypeError` about calling a class constructor, not the game error with its message | Room gm1, p1 and p2 with a question asked. gm1 guesses "4" | The guards throw `GameError`s saying "maximum guesses reached" and "you are the game master" | high; not executed | `Scenarios.MasterAnswersAsWritten` | `Game.GameService.AnswerQuestionFixed` |
| src/game.service.js:34-40 | When no question is set, a first guess counts an attempt and opens a ledger entry before line 40 throws a `TypeError` | Room gm1, p1 and p2 with no question. p1 guesses "4": p1's attempts read 1 and the ledger holds p1 | The guess is refused before anything changes | medium; not executed | `Scenarios.GuessWithoutQuestion` | `Game.GameService.AnswerQuestionFixed` |
| src/game.service.js:18 | `!question instanceof Question` negates the question first, so the test is always false and any value is stored as the question | gm1 adds a value that is not a question. The add succeeds, and p1's next guess throws a `TypeError` | A value that is not a `Question` is refused with "invalid question" | high; not executed | `Scenarios.NonQuestionAccepted` | `Game.GameService.AddQuestionFixed` |
| src/game.service.js:40-46 | A right answer leaves the question in place, so the solved question can be won again | Room gm1, p1 and p2 with answer "4". p1 answers "4", then p2 answers "4": both get true, p2 scores 10, and the role moves twice | A solved question is retired, and later answers find no question | medium; not executed | `Scenarios.SolvedQuestionWonTwice` | `Game.GameService.AnswerQuestionFixed` |
