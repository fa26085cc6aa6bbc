/** The flip card shown by the classic session: flip to see the answer, then
    answer once. */
module Flashcard {

  /** Which of the two callbacks an answer invokes. */
  datatype Callback = OnCorrect | OnIncorrect

  class Flashcard {
    var question: string
    var answer: string
    var isFlipped: bool
    var isAnswered: bool

    constructor (question: string, answer: string)
      ensures this.question == question && this.answer == answer
      ensures !isFlipped && !isAnswered
    {
      this.question := question;
      this.answer := answer;
      isFlipped := false;
      isAnswered := false;
    }

    /** The answer buttons are rendered only while the card is flipped and
        not yet answered. */
    predicate AnswerButtonsShown()
      reads this
    {
      isFlipped && !isAnswered
    }

    /** New props. The resetting effect depends on `[question, answer]`, so
        both flags are cleared exactly when either of them changes. */
    method ChangeCard(q: string, a: string)
      modifies this`question, this`answer, this`isFlipped, this`isAnswered
      ensures question == q && answer == a
      ensures (q != old(question) || a != old(answer)) ==> !isFlipped && !isAnswered
      ensures (q == old(question) && a == old(answer)) ==>
        isFlipped == old(isFlipped) && isAnswered == old(isAnswered)
    {
      if q != question || a != answer {
        isFlipped := false;
        isAnswered := false;
      }
      question := q;
      answer := a;
    }

    /** A click on the card turns it over, unless it has been answered; an
        answered card stays as it is. */
    method HandleFlip()
      modifies this`isFlipped
      ensures !old(isAnswered) ==> isFlipped == !old(isFlipped)
      ensures old(isAnswered) ==> isFlipped == old(isFlipped)
    {
      if !isAnswered {
        isFlipped := !isFlipped;
      }
    }

    /** An answer button: marks the card answered and invokes exactly one
        callback, chosen by the button. */
    method HandleAnswer(correct: bool) returns (called: Callback)
      requires AnswerButtonsShown()
      modifies this`isAnswered
      ensures isAnswered && !AnswerButtonsShown()
      ensures called == (if correct then OnCorrect else OnIncorrect)
    {
      isAnswered := true;
      if correct {
        called := OnCorrect;
      } else {
        called := OnIncorrect;
      }
    }
  }
}
