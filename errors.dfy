/** What an operation of the game engine throws, as a value. */
module Errors {

  /** The `GameError`s the engine raises, one per situation it reports. */
  datatype GameErrorKind =
    | NoUserGiven        // addQuestion was called without a user
    | NotTheGameMaster   // addQuestion was called by someone other than the game master
    | InvalidQuestion    // a question was built from, or given as, something unusable
    | MaxGuessesReached  // the guesser has used up the guesses of this question
    | IsTheGameMaster    // the game master tried to answer
    | NoActiveQuestion   // a guess arrived while no question is asked (corrected engine only)
    | UnknownUser        // a guess arrived from an id that is not in the room (corrected engine only)

  /** Why the JavaScript runtime throws a `TypeError` from inside the engine. */
  datatype TypeErrorCause =
    | GameErrorCalledWithoutNew  // a class constructor was called as a plain function
    | UserRecordMissing          // a property of `undefined` was read: the id is not in the room
    | NoQuestionToGrade          // `isCorrectAnswer` was called on null or on a non-Question value

  datatype Error =
    | GameError(kind: GameErrorKind)
    | TypeError(cause: TypeErrorCause)

  /** A value that may be absent (`undefined` in the source). */
  datatype Option<T> = None | Some(value: T)

  /** The outcome of an engine operation: its value, or the error it throws. */
  datatype Result<T> = Ok(value: T) | Err(error: Error)
}
