/** Participants of a room (the `User` class of src/game.service.js). */
module Users {

  /** A connection-scoped participant identifier. */
  type Id = string

  datatype Status = Online | Disconnected | Left

  /** A participant's record. Scores and counters are JavaScript numbers; here they are unbounded integers. */
  datatype User = User(
    name: string,
    id: Id,
    status: Status,
    score: int,
    questionsAttempted: int,
    questionsCorrect: int)

  /** Points a correct answer earns. */
  const CorrectAnswerPoints := 10

  /** The score of a record is exactly what its correct answers earned. */
  predicate Tallied(u: User) {
    u.score == CorrectAnswerPoints * u.questionsCorrect
  }

  /** A new participant: online, with nothing scored or attempted yet. */
  function NewUser(name: string, id: Id): (u: User)
    ensures u.name == name && u.id == id && u.status == Online
    ensures u.score == 0 && u.questionsAttempted == 0 && u.questionsCorrect == 0
    ensures Tallied(u)
  {
    User(name, id, Online, 0, 0, 0)
  }

  /** The record once its first attempt at the current question is counted. */
  function CountAttempt(u: User): (v: User)
    ensures v.questionsAttempted == u.questionsAttempted + 1
    ensures v.name == u.name && v.id == u.id && v.status == u.status
    ensures v.score == u.score && v.questionsCorrect == u.questionsCorrect
    ensures Tallied(u) ==> Tallied(v)
  {
    u.(questionsAttempted := u.questionsAttempted + 1)
  }

  /** The record once a correct answer is credited to it: ten points and one more correct answer. */
  function Credit(u: User): (v: User)
    ensures v.score == u.score + CorrectAnswerPoints && v.questionsCorrect == u.questionsCorrect + 1
    ensures v.name == u.name && v.id == u.id && v.status == u.status
    ensures v.questionsAttempted == u.questionsAttempted
    ensures Tallied(u) ==> Tallied(v)
  {
    u.(score := u.score + CorrectAnswerPoints, questionsCorrect := u.questionsCorrect + 1)
  }
}
