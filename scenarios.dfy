/**
 * Concrete games played against the engine: the situations of src/game_service.spec.js, once against
 * the engine as written and, where the two differ, once against the corrected engine.
 */
module Scenarios {
  import opened Errors
  import opened Users
  import opened Questions
  import opened KeyOrder
  import opened Game

  /** A room created by "gm1" that "p1" and "p2" have joined, in that order. */
  method ThreePlayerRoom() returns (g: GameService)
    ensures fresh(g) && g.Valid()
    ensures g.order == ["gm1", "p1", "p2"]
    ensures g.users == map["gm1" := NewUser("GameMaster", "gm1"), "p1" := NewUser("Player1", "p1"),
                           "p2" := NewUser("Player2", "p2")]
    ensures g.gameMaster == NewUser("GameMaster", "gm1")
    ensures g.userGuesses == map[] && g.question == Null
  {
    g := new GameService("room1", NewUser("GameMaster", "gm1"));
    g.AddUser(NewUser("Player1", "p1"));
    g.AddUser(NewUser("Player2", "p2"));
  }

  /** The question "What is 2+2?", answered by "4". */
  function TwoPlusTwo(): (q: Question)
    ensures q.IsCorrectAnswer(Str("4")) && !q.IsCorrectAnswer(Str("5"))
  {
    Question("What is 2+2?", "4")
  }

  /** Rotation in join order, wrapping from the last participant to the first, whatever their status. */
  method RotationOrder() returns (first: Id, second: Id, third: Id, alone: Id)
    ensures first == "p1" && second == "p2" && third == "gm1" && alone == "gm1"
  {
    var g := ThreePlayerRoom();
    assert g.order[0] == "gm1";
    g.UpdateGameMaster();
    first := g.gameMaster.id;
    assert first == g.order[1];
    g.UpdateGameMaster();
    second := g.gameMaster.id;
    assert second == g.order[2];
    g.UpdateGameMaster();
    third := g.gameMaster.id;
    assert third == g.order[0];
    var single := new GameService("single", NewUser("GameMaster", "gm1"));
    single.UpdateGameMaster();
    alone := single.gameMaster.id;
  }

  /** Joining again under a known id replaces the record and keeps its place. */
  method RejoinKeepsPlace() returns (order: seq<Id>, name: string)
    ensures order == ["gm1", "p1", "p2"] && name == "Renamed"
  {
    var g := ThreePlayerRoom();
    g.AddUser(NewUser("Renamed", "p1"));
    order := g.order;
    name := g.users["p1"].name;
  }

  /** A room with "gm1" as game master, "p1" as a participant and "What is 2+2?" asked. */
  ghost predicate Asking(g: GameService)
    reads g
  {
    g.Valid() && g.question == Instance(TwoPlusTwo()) && g.gameMaster.id == "gm1" && "p1" in g.users
  }

  /** "gm1" asks "What is 2+2?" in a fresh room, on the engine as written or on the corrected one. */
  method Ask(g: GameService, fixed: bool)
    requires g.Valid() && g.gameMaster.id == "gm1" && "p1" in g.users
    modifies g
    ensures Asking(g)
    ensures g.users == old(g.users) && g.order == old(g.order) && g.userGuesses == old(g.userGuesses)
  {
    var added;
    if fixed {
      added := g.AddQuestionFixed(Instance(TwoPlusTwo()), Some("gm1"));
    } else {
      added := g.AddQuestion(Instance(TwoPlusTwo()), Some("gm1"));
    }
  }

  /** A room of "gm1" and "p1" where "What is 2+2?" has been asked and nobody has guessed. */
  method TwoPlayerQuiz(fixed: bool) returns (g: GameService)
    ensures fresh(g) && Asking(g) && g.userGuesses == map[]
  {
    g := new GameService("room1", NewUser("GameMaster", "gm1"));
    g.AddUser(NewUser("Player1", "p1"));
    Ask(g, fixed);
  }

  /** The three-player room where "What is 2+2?" has been asked and nobody has guessed. */
  method ThreePlayerQuiz(fixed: bool) returns (g: GameService)
    ensures fresh(g) && Asking(g) && g.userGuesses == map[]
    ensures g.order == ["gm1", "p1", "p2"]
    ensures "p2" in g.users && g.users["p2"] == NewUser("Player2", "p2")
  {
    g := ThreePlayerRoom();
    Ask(g, fixed);
  }

  /** "p1" guesses wrong against the engine as written: the ledger entry is opened at 0 and stays there. */
  method WrongGuessAsWritten(g: GameService, guess: string)
    requires Asking(g) && (g.userGuesses == map[] || g.userGuesses == map["p1" := 0]) && guess != "4"
    modifies g
    ensures Asking(g) && g.userGuesses == map["p1" := 0]
  {
    var r := g.AnswerQuestion("p1", Str(guess));
  }

  /** "p1" guesses wrong against the corrected engine: the ledger entry goes up by one. */
  method WrongGuessFixed(g: GameService, guess: string, count: nat) returns (r: Result<bool>)
    requires Asking(g) && count < MaxGuesses && guess != "4"
    requires g.userGuesses == if count == 0 then map[] else map["p1" := count]
    modifies g
    ensures Asking(g) && g.userGuesses == map["p1" := count + 1] && r == Ok(false)
    ensures g.order == old(g.order) && g.users.Keys == old(g.users).Keys
    ensures "p2" in old(g.users) ==> g.users["p2"] == old(g.users)["p2"]
  {
    r := g.AnswerQuestionFixed("p1", Str(guess));
  }

  /** As written: three wrong guesses leave the ledger at 0, so a fourth guess is still graded. */
  method WrongGuessesNeverRunOut() returns (ledger: nat, fourth: Result<bool>)
    ensures ledger == 0 && fourth == Ok(true)
  {
    var g := TwoPlayerQuiz(false);
    WrongGuessAsWritten(g, "1");
    WrongGuessAsWritten(g, "2");
    WrongGuessAsWritten(g, "3");
    ledger := g.userGuesses["p1"];
    fourth := g.AnswerQuestion("p1", Str("4"));
  }

  /** Corrected: three wrong guesses fill the ledger and the fourth guess is refused. */
  method FourthGuessRefused() returns (ledger: nat, fourth: Result<bool>)
    ensures ledger == 3 && fourth == Err(GameError(MaxGuessesReached))
  {
    var g := TwoPlayerQuiz(true);
    var r1 := WrongGuessFixed(g, "1", 0);
    var r2 := WrongGuessFixed(g, "2", 1);
    var r3 := WrongGuessFixed(g, "3", 2);
    ledger := g.userGuesses["p1"];
    assert g.Exhausted("p1");
    fourth := g.AnswerQuestionFixed("p1", Str("4"));
  }

  /** As written: the game master answering their own question gets a TypeError, not the game error. */
  method MasterAnswersAsWritten() returns (r: Result<bool>)
    ensures r == Err(TypeError(GameErrorCalledWithoutNew))
  {
    var g := ThreePlayerRoom();
    var added := g.AddQuestion(Instance(TwoPlusTwo()), Some("gm1"));
    r := g.AnswerQuestion("gm1", Str("4"));
  }

  /** Corrected: the game master answering their own question is told so. */
  method MasterAnswersFixed() returns (r: Result<bool>)
    ensures r == Err(GameError(IsTheGameMaster))
  {
    var g := ThreePlayerRoom();
    var added := g.AddQuestionFixed(Instance(TwoPlusTwo()), Some("gm1"));
    r := g.AnswerQuestionFixed("gm1", Str("4"));
  }

  /** As written: a guess with no question asked counts an attempt and opens a ledger entry, then fails. */
  method GuessWithoutQuestion() returns (r: Result<bool>, attempted: int, hasEntry: bool)
    ensures r == Err(TypeError(NoQuestionToGrade)) && attempted == 1 && hasEntry
  {
    var g := ThreePlayerRoom();
    r := g.AnswerQuestion("p1", Str("4"));
    attempted := g.users["p1"].questionsAttempted;
    hasEntry := "p1" in g.userGuesses;
  }

  /** Corrected: a guess with no question asked fails and changes nothing. */
  method GuessWithoutQuestionFixed() returns (r: Result<bool>, attempted: int, hasEntry: bool)
    ensures r == Err(GameError(NoActiveQuestion)) && attempted == 0 && !hasEntry
  {
    var g := ThreePlayerRoom();
    r := g.AnswerQuestionFixed("p1", Str("4"));
    attempted := g.users["p1"].questionsAttempted;
    hasEntry := "p1" in g.userGuesses;
  }

  /** As written: a value that is not a question is accepted, and the next guess fails on it. */
  method NonQuestionAccepted() returns (added: Result<()>, guess: Result<bool>)
    ensures added == Ok(()) && guess == Err(TypeError(NoQuestionToGrade))
  {
    var g := ThreePlayerRoom();
    added := g.AddQuestion(NotAQuestion, Some("gm1"));
    guess := g.AnswerQuestion("p1", Str("4"));
  }

  /** Corrected: a value that is not a question is refused and nothing is stored. */
  method NonQuestionRefused() returns (added: Result<()>, stored: QuestionValue)
    ensures added == Err(GameError(InvalidQuestion)) && stored == Null
  {
    var g := ThreePlayerRoom();
    added := g.AddQuestionFixed(NotAQuestion, Some("gm1"));
    stored := g.question;
  }

  /** The three-player room after "p1" has solved "What is 2+2?": "p1" is game master and "p2" untouched. */
  ghost predicate SolvedByP1(g: GameService)
    reads g
  {
    && g.Valid() && g.order == ["gm1", "p1", "p2"] && g.gameMaster.id == "p1"
    && "p2" in g.users && g.users["p2"] == NewUser("Player2", "p2") && g.userGuesses == map[]
  }

  /** "p1" solves the question against the engine as written. */
  method P1SolvesAsWritten() returns (g: GameService, r: Result<bool>)
    ensures fresh(g) && SolvedByP1(g) && g.question == Instance(TwoPlusTwo()) && r == Ok(true)
  {
    g := ThreePlayerQuiz(false);
    r := g.AnswerQuestion("p1", Str("4"));
    NextKeyAt(g.order, 0);
  }

  /** "p1" solves the question against the corrected engine. */
  method P1SolvesFixed() returns (g: GameService, r: Result<bool>)
    ensures fresh(g) && SolvedByP1(g) && g.question == Null && r == Ok(true)
  {
    g := ThreePlayerQuiz(true);
    r := g.AnswerQuestionFixed("p1", Str("4"));
    NextKeyAt(g.order, 0);
  }

  /** As written: a solved question stays asked, so a second participant wins it again. */
  method SolvedQuestionWonTwice() returns (first: Result<bool>, second: Result<bool>, score: int, master: Id)
    ensures first == Ok(true) && second == Ok(true) && score == 10 && master == "p2"
  {
    var g;
    g, first := P1SolvesAsWritten();
    second := g.AnswerQuestion("p2", Str("4"));
    NextKeyAt(g.order, 1);
    score := g.users["p2"].score;
    master := g.gameMaster.id;
  }

  /** Corrected: once a question is solved, a further answer finds no question. */
  method SolvedQuestionRetired() returns (first: Result<bool>, second: Result<bool>, score: int, master: Id)
    ensures first == Ok(true) && second == Err(GameError(NoActiveQuestion)) && score == 0 && master == "p1"
  {
    var g;
    g, first := P1SolvesFixed();
    second := g.AnswerQuestionFixed("p2", Str("4"));
    score := g.users["p2"].score;
    master := g.gameMaster.id;
  }

  /**
   * Corrected: "p1" guesses wrong, then "p2" guesses right; "p2" is credited and the role passes from
   * "gm1" to "p1", the next in join order.
   */
  method WrongThenRight() returns (wrong: Result<bool>, ledger: nat, right: Result<bool>, score: int, correct: int, master: Id)
    ensures wrong == Ok(false) && ledger == 1
    ensures right == Ok(true) && score == 10 && correct == 1 && master == "p1"
  {
    var g := ThreePlayerQuiz(true);
    wrong := WrongGuessFixed(g, "5", 0);
    ledger := g.userGuesses["p1"];
    right, score, correct, master := P2SolvesFixed(g);
  }

  /** Corrected: "p2", a fresh participant, answers "What is 2+2?" right while "gm1" is game master. */
  method P2SolvesFixed(g: GameService) returns (right: Result<bool>, score: int, correct: int, master: Id)
    requires Asking(g) && g.order == ["gm1", "p1", "p2"] && "p2" !in g.userGuesses
    requires "p2" in g.users && g.users["p2"] == NewUser("Player2", "p2")
    modifies g
    ensures right == Ok(true) && score == 10 && correct == 1 && master == "p1"
  {
    right := g.AnswerQuestionFixed("p2", Str("4"));
    NextKeyAt(g.order, 0);
    score := g.users["p2"].score;
    correct := g.users["p2"].questionsCorrect;
    master := g.gameMaster.id;
  }
}
