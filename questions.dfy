/** Questions and their grading (the `Question` class of src/game.service.js). */
module Questions {
  import opened Errors

  /** A JavaScript value given where the engine expects a string: a string, or anything else. */
  datatype JsValue = Str(s: string) | NonString

  /** A question: its text and the one answer it accepts. */
  datatype Question = Question(text: string, correctAnswer: string) {

    /** Strict equality of the guess with the stored answer: a value that is not a string never matches. */
    predicate IsCorrectAnswer(answer: JsValue): (b: bool)
      ensures b <==> answer.Str? && answer.s == correctAnswer
      ensures answer.NonString? ==> !b
    {
      answer == Str(correctAnswer)
    }
  }

  /** The value a game holds, or is given, as its question: null, a Question instance, or anything else. */
  datatype QuestionValue = Null | Instance(q: Question) | NotAQuestion

  /** Building a question: both text and answer must be strings. */
  function MakeQuestion(text: JsValue, answer: JsValue): (r: Result<Question>)
    ensures r.Ok? <==> text.Str? && answer.Str?
    ensures r.Ok? ==> r.value.text == text.s && r.value.correctAnswer == answer.s
    ensures r.Err? ==> r.error == GameError(InvalidQuestion)
  {
    if text.Str? && answer.Str? then Ok(Question(text.s, answer.s))
    else Err(GameError(InvalidQuestion))
  }

  /** A question built from an answer accepts that answer and nothing else, not even a non-string. */
  lemma AcceptsExactlyItsAnswer(text: string, answer: string, guess: JsValue)
    ensures MakeQuestion(Str(text), Str(answer)).Ok?
    ensures MakeQuestion(Str(text), Str(answer)).value.IsCorrectAnswer(guess) <==> guess == Str(answer)
  {
  }

  /** Grading is a function of the question and the guess alone, and at most one guess is right. */
  lemma AtMostOneCorrectAnswer(q: Question, a: JsValue, b: JsValue)
    requires q.IsCorrectAnswer(a) && q.IsCorrectAnswer(b)
    ensures a == b && a.Str? && a.s == q.correctAnswer
  {
  }
}
