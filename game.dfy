/**
 * The per-room game engine (the `GameService` class of src/game.service.js): the room's participants
 * in join order, the game master, the guess ledger and the current question.
 *
 * `AddQuestion` and `AnswerQuestion` model the engine as written; `AddQuestionFixed` and
 * `AnswerQuestionFixed` are the corrected engine that the README's findings describe.
 */
module Game {
  import opened Errors
  import opened Users
  import opened Questions
  import opened KeyOrder

  /** How many wrong guesses a participant may make at one question. */
  const MaxGuesses := 3

  /** What `scoreboard` returns: the game master and every participant in join order. */
  datatype Standings = Standings(gameMaster: User, players: seq<User>)

  /** The participants' records, in the order of their ids in `keys`. */
  function Players(keys: seq<Id>, users: map<Id, User>): (players: seq<User>)
    requires forall i :: 0 <= i < |keys| ==> keys[i] in users
    ensures |players| == |keys|
    ensures forall i :: 0 <= i < |keys| ==> players[i] == users[keys[i]]
  {
    if keys == [] then [] else [users[keys[0]]] + Players(keys[1..], users)
  }

  /** Every record of the map scores 10 points per correct answer. */
  ghost predicate EveryoneTallied(users: map<Id, User>) {
    forall k :: k in users ==> Tallied(users[k])
  }

  /** Storing a tallied record keeps every record tallied. */
  lemma TalliedAfterUpdate(users: map<Id, User>, id: Id, u: User)
    requires EveryoneTallied(users) && Tallied(u)
    ensures EveryoneTallied(users[id := u])
  {
  }

  /** A second update of the same key overrides the first. */
  lemma UpdateTwice(m: map<Id, User>, k: Id, a: User, b: User)
    ensures m[k := a][k := b] == m[k := b]
  {
  }

  class GameService {
    const roomId: string
    /** The room's participants by id (a `Map`); `order` is the insertion order of its keys. */
    var users: map<Id, User>
    var order: seq<Id>
    /** The game master's record as it was when the role passed to them. */
    var gameMaster: User
    /** The guess ledger: participant id to attempt count, for the current question cycle. */
    var userGuesses: map<Id, nat>
    var question: QuestionValue

    ghost predicate Valid()
      reads this
    {
      && NoDuplicates(order)
      && (forall k :: k in order <==> k in users)
      && (forall k :: k in users ==> users[k].id == k)
      && gameMaster.id in users
      && (forall k :: k in userGuesses ==> k in users && userGuesses[k] <= MaxGuesses)
    }

    /** Every record the room holds, the game master's included, scores 10 points per correct answer. */
    ghost predicate AllTallied()
      reads this
    {
      Tallied(gameMaster) && EveryoneTallied(users)
    }

    /** Every ledger entry reads 0: the state the engine as written never leaves. */
    ghost predicate LedgerAtZero()
      reads this
    {
      forall k :: k in userGuesses ==> userGuesses[k] == 0
    }

    /** A new room: its creator is the only participant and the game master; no guesses, no question. */
    constructor (roomId: string, initialGM: User)
      ensures Valid()
      ensures this.roomId == roomId
      ensures users == map[initialGM.id := initialGM] && order == [initialGM.id]
      ensures gameMaster == initialGM
      ensures userGuesses == map[] && question == Null
      ensures LedgerAtZero()
      ensures Tallied(initialGM) ==> AllTallied()
    {
      this.roomId := roomId;
      users := map[initialGM.id := initialGM];
      order := [initialGM.id];
      gameMaster := initialGM;
      userGuesses := map[];
      question := Null;
    }

    /** The participant has used up the guesses the ledger allows. */
    ghost predicate Exhausted(id: Id)
      reads this
    {
      id in userGuesses && userGuesses[id] >= MaxGuesses
    }

    /** A guess from `id` passes the guards and reaches the participant's record. */
    ghost predicate Admitted(id: Id)
      reads this
    {
      !Exhausted(id) && id != gameMaster.id && id in users
    }

    /** The ledger count of `id`, zero when it has no entry. */
    function GuessCount(id: Id): nat
      reads this
    {
      if id in userGuesses then userGuesses[id] else 0
    }

    /** The participant's record once a guess from them is counted: only a first attempt counts. */
    function Counted(id: Id): User
      reads this
      requires id in users
    {
      if id in userGuesses then users[id] else CountAttempt(users[id])
    }

    /** The ledger once a guess from `id` is counted: a first attempt opens an entry at 0. */
    ghost function LedgerWithAttempt(id: Id): map<Id, nat>
      reads this
    {
      if id in userGuesses then userGuesses else userGuesses[id := 0]
    }

    /** While every ledger entry reads 0, the guard on used-up guesses lets every participant through. */
    lemma GuessesNeverUsedUp(id: Id)
      requires LedgerAtZero()
      ensures !Exhausted(id)
    {
    }

    /** Adding a question, as written: the caller must be the game master; the question is not checked. */
    method AddQuestion(newQuestion: QuestionValue, user: Option<Id>) returns (r: Result<()>)
      requires Valid()
      modifies this`question
      ensures Valid()
      ensures user.None? ==> r == Err(GameError(NoUserGiven)) && question == old(question)
      ensures user.Some? && user.value != gameMaster.id ==>
                r == Err(GameError(NotTheGameMaster)) && question == old(question)
      ensures user == Some(gameMaster.id) ==> r == Ok(()) && question == newQuestion
    {
      if user.None? {
        return Err(GameError(NoUserGiven));
      }
      if user.value != gameMaster.id {
        return Err(GameError(NotTheGameMaster));
      }
      question := newQuestion;
      r := Ok(());
    }

    /** Adding a question, corrected: a value that is not a question is refused. */
    method AddQuestionFixed(newQuestion: QuestionValue, user: Option<Id>) returns (r: Result<()>)
      requires Valid()
      modifies this`question
      ensures Valid()
      ensures r.Err? ==> question == old(question)
      ensures user.None? ==> r == Err(GameError(NoUserGiven))
      ensures user.Some? && user.value != gameMaster.id ==> r == Err(GameError(NotTheGameMaster))
      ensures user == Some(gameMaster.id) && !newQuestion.Instance? ==> r == Err(GameError(InvalidQuestion))
      ensures user == Some(gameMaster.id) && newQuestion.Instance? ==> r == Ok(()) && question == newQuestion
    {
      if user.None? {
        return Err(GameError(NoUserGiven));
      }
      if user.value != gameMaster.id {
        return Err(GameError(NotTheGameMaster));
      }
      if !newQuestion.Instance? {
        return Err(GameError(InvalidQuestion));
      }
      question := newQuestion;
      r := Ok(());
    }

    /**
     * A guess, as written. The ledger and game-master guards throw TypeErrors (the error class is called
     * without `new`); a first attempt is counted before the question is looked at; a wrong guess leaves
     * the ledger as it is; a right one is credited, empties the ledger and passes the game-master role
     * on, but leaves the question in place.
     */
    method AnswerQuestion(user: Id, answer: JsValue) returns (r: Result<bool>)
      requires Valid()
      modifies this`users, this`userGuesses, this`gameMaster
      ensures Valid()
      ensures users.Keys == old(users).Keys
      // the ledger never counts beyond the 0 that opens an entry
      ensures forall k :: k in userGuesses ==>
                userGuesses[k] == 0 || (k in old(userGuesses) && userGuesses[k] == old(userGuesses)[k])
      ensures old(LedgerAtZero()) ==> LedgerAtZero()
      ensures old(AllTallied()) ==> AllTallied()
      ensures old(Exhausted(user)) || user == old(gameMaster.id) ==>
                r == Err(TypeError(GameErrorCalledWithoutNew)) && unchanged(this)
      ensures !old(Exhausted(user)) && user != old(gameMaster.id) && user !in old(users) ==>
                r == Err(TypeError(UserRecordMissing)) && unchanged(this)
      ensures old(Admitted(user)) && !question.Instance? ==>
                && r == Err(TypeError(NoQuestionToGrade))
                && users == old(users)[user := old(Counted(user))]
                && userGuesses == old(LedgerWithAttempt(user))
                && gameMaster == old(gameMaster)
      ensures old(Admitted(user)) && question.Instance? && question.q.IsCorrectAnswer(answer) ==>
                && r == Ok(true)
                && users == old(users)[user := Credit(old(Counted(user)))]
                && userGuesses == map[]
                && gameMaster == users[NextKey(order, old(gameMaster.id))]
      ensures old(Admitted(user)) && question.Instance? && !question.q.IsCorrectAnswer(answer) ==>
                && r == Ok(false)
                && users == old(users)[user := old(Counted(user))]
                && userGuesses == old(LedgerWithAttempt(user))
                && gameMaster == old(gameMaster)
    {
      var previousUserGuesses := if user in userGuesses then Some(userGuesses[user]) else None;
      if previousUserGuesses.Some? && previousUserGuesses.value >= MaxGuesses {
        return Err(TypeError(GameErrorCalledWithoutNew));
      }
      if user == gameMaster.id {
        return Err(TypeError(GameErrorCalledWithoutNew));
      }
      r := CountAndGradeAsWritten(user, answer, previousUserGuesses);
    }

    /**
     * A guess past the two guards, as written: the record is looked up, a first attempt is counted and
     * opens a ledger entry at 0, and then the guess is graded.
     */
    method CountAndGradeAsWritten(user: Id, answer: JsValue, previousUserGuesses: Option<nat>) returns (r: Result<bool>)
      requires Valid() && !Exhausted(user) && user != gameMaster.id
      requires previousUserGuesses == if user in userGuesses then Some(userGuesses[user]) else None
      modifies this`users, this`userGuesses, this`gameMaster
      ensures Valid()
      ensures users.Keys == old(users).Keys
      ensures forall k :: k in userGuesses ==>
                userGuesses[k] == 0 || (k in old(userGuesses) && userGuesses[k] == old(userGuesses)[k])
      ensures old(LedgerAtZero()) ==> LedgerAtZero()
      ensures old(AllTallied()) ==> AllTallied()
      ensures user !in old(users) ==> r == Err(TypeError(UserRecordMissing)) && unchanged(this)
      ensures user in old(users) && !question.Instance? ==>
                && r == Err(TypeError(NoQuestionToGrade))
                && users == old(users)[user := old(Counted(user))]
                && userGuesses == old(LedgerWithAttempt(user))
                && gameMaster == old(gameMaster)
      ensures user in old(users) && question.Instance? && question.q.IsCorrectAnswer(answer) ==>
                && r == Ok(true)
                && users == old(users)[user := Credit(old(Counted(user)))]
                && userGuesses == map[]
                && gameMaster == users[NextKey(order, old(gameMaster.id))]
      ensures user in old(users) && question.Instance? && !question.q.IsCorrectAnswer(answer) ==>
                && r == Ok(false)
                && users == old(users)[user := old(Counted(user))]
                && userGuesses == old(LedgerWithAttempt(user))
                && gameMaster == old(gameMaster)
    {
      var userStore := if user in users then Some(users[user]) else None;
      if previousUserGuesses.None? {
        if userStore.None? {
          return Err(TypeError(UserRecordMissing));
        }
        r := FirstGuessAsWritten(user, answer);
      } else {
        r := GradeAsWritten(user, answer, previousUserGuesses.value);
      }
    }

    /** A participant's first guess at the question, as written: counted, entered at 0, then graded. */
    method FirstGuessAsWritten(user: Id, answer: JsValue) returns (r: Result<bool>)
      requires Valid() && user in users && user !in userGuesses
      modifies this`users, this`userGuesses, this`gameMaster
      ensures Valid()
      ensures users.Keys == old(users).Keys
      ensures forall k :: k in userGuesses ==>
                userGuesses[k] == 0 || (k in old(userGuesses) && userGuesses[k] == old(userGuesses)[k])
      ensures old(LedgerAtZero()) ==> LedgerAtZero()
      ensures old(AllTallied()) ==> AllTallied()
      ensures !question.Instance? ==>
                && r == Err(TypeError(NoQuestionToGrade))
                && users == old(users)[user := CountAttempt(old(users)[user])]
                && userGuesses == old(userGuesses)[user := 0]
                && gameMaster == old(gameMaster)
      ensures question.Instance? && question.q.IsCorrectAnswer(answer) ==>
                && r == Ok(true)
                && users == old(users)[user := Credit(CountAttempt(old(users)[user]))]
                && userGuesses == map[]
                && gameMaster == users[NextKey(order, old(gameMaster.id))]
      ensures question.Instance? && !question.q.IsCorrectAnswer(answer) ==>
                && r == Ok(false)
                && users == old(users)[user := CountAttempt(old(users)[user])]
                && userGuesses == old(userGuesses)[user := 0]
                && gameMaster == old(gameMaster)
    {
      ghost var users0 := users;
      CountFirstAttempt(user);
      r := GradeAsWritten(user, answer, 0);
      UpdateTwice(users0, user, CountAttempt(users0[user]), Credit(CountAttempt(users0[user])));
    }

    /**
     * Grading as written, once the guess is counted: no question throws a TypeError, a right answer is
     * rewarded, and a wrong one raises only a local copy of the count, so nothing changes.
     */
    method GradeAsWritten(user: Id, answer: JsValue, previousGuesses: nat) returns (r: Result<bool>)
      requires Valid() && user in users
      modifies this`users, this`userGuesses, this`gameMaster
      ensures Valid()
      ensures users.Keys == old(users).Keys
      ensures old(LedgerAtZero()) ==> LedgerAtZero()
      ensures old(AllTallied()) ==> AllTallied()
      ensures !question.Instance? ==> r == Err(TypeError(NoQuestionToGrade)) && unchanged(this)
      ensures question.Instance? && question.q.IsCorrectAnswer(answer) ==>
                && r == Ok(true)
                && users == old(users)[user := Credit(old(users)[user])]
                && userGuesses == map[]
                && gameMaster == users[NextKey(order, old(gameMaster.id))]
      ensures question.Instance? && !question.q.IsCorrectAnswer(answer) ==> r == Ok(false) && unchanged(this)
    {
      if !question.Instance? {
        return Err(TypeError(NoQuestionToGrade));
      }
      if question.q.IsCorrectAnswer(answer) {
        RewardCorrectAnswer(user, users[user]);
        return Ok(true);
      } else {
        // the incremented count is only a local value: the ledger keeps its entry as it was
        var count := previousGuesses + 1;
        return Ok(false);
      }
    }

    /**
     * A guess, corrected: every guard is checked before anything changes, a wrong guess is entered in
     * the ledger, and a right one also retires the question.
     */
    method AnswerQuestionFixed(user: Id, answer: JsValue) returns (r: Result<bool>)
      requires Valid()
      modifies this`users, this`userGuesses, this`gameMaster, this`question
      ensures Valid()
      ensures users.Keys == old(users).Keys
      ensures old(AllTallied()) ==> AllTallied()
      ensures r.Err? ==> unchanged(this)
      ensures old(Exhausted(user)) ==> r == Err(GameError(MaxGuessesReached))
      ensures !old(Exhausted(user)) && user == old(gameMaster.id) ==> r == Err(GameError(IsTheGameMaster))
      ensures !old(Exhausted(user)) && user != old(gameMaster.id) && !old(question).Instance? ==>
                r == Err(GameError(NoActiveQuestion))
      ensures !old(Exhausted(user)) && user != old(gameMaster.id) && old(question).Instance? && user !in old(users) ==>
                r == Err(GameError(UnknownUser))
      ensures old(Admitted(user)) && old(question).Instance? && old(question).q.IsCorrectAnswer(answer) ==>
                && r == Ok(true)
                && users == old(users)[user := Credit(old(Counted(user)))]
                && userGuesses == map[]
                && question == Null
                && gameMaster == users[NextKey(order, old(gameMaster.id))]
      ensures old(Admitted(user)) && old(question).Instance? && !old(question).q.IsCorrectAnswer(answer) ==>
                && r == Ok(false)
                && users == old(users)[user := old(Counted(user))]
                && userGuesses == old(userGuesses)[user := old(GuessCount(user)) + 1]
                && question == old(question)
                && gameMaster == old(gameMaster)
    {
      var previousUserGuesses := if user in userGuesses then Some(userGuesses[user]) else None;
      if previousUserGuesses.Some? && previousUserGuesses.value >= MaxGuesses {
        return Err(GameError(MaxGuessesReached));
      }
      if user == gameMaster.id {
        return Err(GameError(IsTheGameMaster));
      }
      if !question.Instance? {
        return Err(GameError(NoActiveQuestion));
      }
      if user !in users {
        return Err(GameError(UnknownUser));
      }
      r := GradeGuess(user, answer);
    }

    /** A guess that passed every guard of the corrected engine: counted, graded, and entered or rewarded. */
    method GradeGuess(user: Id, answer: JsValue) returns (r: Result<bool>)
      requires Valid() && Admitted(user) && question.Instance?
      modifies this`users, this`userGuesses, this`gameMaster, this`question
      ensures Valid()
      ensures old(AllTallied()) ==> AllTallied()
      ensures old(question).q.IsCorrectAnswer(answer) ==>
                && r == Ok(true)
                && users == old(users)[user := Credit(old(Counted(user)))]
                && userGuesses == map[]
                && question == Null
                && gameMaster == users[NextKey(order, old(gameMaster.id))]
      ensures !old(question).q.IsCorrectAnswer(answer) ==>
                && r == Ok(false)
                && users == old(users)[user := old(Counted(user))]
                && userGuesses == old(userGuesses)[user := old(GuessCount(user)) + 1]
                && question == old(question)
                && gameMaster == old(gameMaster)
    {
      var previousUserGuesses := GuessCount(user);
      var userStore := Counted(user);
      if question.q.IsCorrectAnswer(answer) {
        question := Null;
        RewardCorrectAnswer(user, userStore);
        return Ok(true);
      } else {
        if AllTallied() {
          TalliedAfterUpdate(users, user, userStore);
        }
        users := users[user := userStore];
        userGuesses := userGuesses[user := previousUserGuesses + 1];
        return Ok(false);
      }
    }

    /** The first attempt of a participant at the current question: counted, and a ledger entry opened at 0. */
    method CountFirstAttempt(user: Id)
      requires Valid() && user in users && user !in userGuesses
      modifies this`users, this`userGuesses
      ensures Valid()
      ensures users == old(users)[user := CountAttempt(old(users)[user])]
      ensures userGuesses == old(userGuesses)[user := 0]
      ensures users.Keys == old(users).Keys
      ensures old(LedgerAtZero()) ==> LedgerAtZero()
      ensures old(AllTallied()) ==> AllTallied()
    {
      users := users[user := CountAttempt(users[user])];
      userGuesses := userGuesses[user := 0];
    }

    /**
     * A correct answer: the guesser's record, as it stands once the guess is counted, is credited, the
     * ledger emptied and the game-master role passed on.
     */
    method RewardCorrectAnswer(user: Id, record: User)
      requires Valid() && user in users && record.id == user
      modifies this`users, this`userGuesses, this`gameMaster
      ensures Valid()
      ensures users == old(users)[user := Credit(record)]
      ensures userGuesses == map[]
      ensures gameMaster == users[NextKey(order, old(gameMaster.id))]
      ensures old(AllTallied()) && Tallied(record) ==> AllTallied()
    {
      if AllTallied() && Tallied(record) {
        TalliedAfterUpdate(users, user, Credit(record));
      }
      users := users[user := Credit(record)];
      userGuesses := map[];
      UpdateGameMaster();
    }

    /** Joining: insert or replace the record by id; a replaced id keeps its place in the join order. */
    method AddUser(user: User)
      requires Valid()
      modifies this`users, this`order
      ensures Valid()
      ensures users == old(users)[user.id := user]
      ensures user.id in old(users) ==> order == old(order)
      ensures user.id !in old(users) ==> order == old(order) + [user.id]
      ensures old(AllTallied()) && Tallied(user) ==> AllTallied()
    {
      users := users[user.id := user];
      order := KeysAfterSet(order, user.id);
    }

    /** The game-master role passes to the next participant in join order, wrapping around. */
    method UpdateGameMaster()
      requires Valid()
      modifies this`gameMaster
      ensures Valid()
      ensures gameMaster == users[NextKey(order, old(gameMaster.id))]
      ensures forall i :: 0 <= i < |order| && order[i] == old(gameMaster.id) ==>
                gameMaster.id == order[Wrap(i + 1, |order|)]
      ensures |order| == 1 ==> gameMaster.id == old(gameMaster.id)
      ensures old(AllTallied()) ==> AllTallied()
    {
      var keysArray := order;
      var currentIndex := IndexOf(keysArray, gameMaster.id);
      var nextIndex := (currentIndex + 1) % |keysArray|;
      gameMaster := users[keysArray[nextIndex]];
      forall i | 0 <= i < |order| && order[i] == old(gameMaster.id)
        ensures gameMaster.id == order[Wrap(i + 1, |order|)]
      {
        NextKeyAt(order, i);
      }
    }

    /** The standings: the game master and every participant once, in join order. */
    method Scoreboard() returns (board: Standings)
      requires Valid()
      ensures board.gameMaster == gameMaster
      ensures |board.players| == |order|
      ensures forall i :: 0 <= i < |order| ==> board.players[i] == users[order[i]] && board.players[i].id == order[i]
      ensures forall i, j :: 0 <= i < j < |board.players| ==> board.players[i].id != board.players[j].id
      ensures forall k :: k in users ==> exists i :: 0 <= i < |board.players| && board.players[i] == users[k]
    {
      board := Standings(gameMaster, Players(order, users));
      forall k | k in users
        ensures exists i :: 0 <= i < |board.players| && board.players[i] == users[k]
      {
        var i := IndexOf(order, k);
        assert board.players[i] == users[k];
      }
    }
  }
}
