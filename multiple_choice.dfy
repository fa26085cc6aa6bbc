/** The multiple-choice quiz: the card's answer shuffled among three fixed
    distractors. */
module MultipleChoice {
  import opened Wrappers
  import opened StudyTypes

  const Distractors: seq<string> :=
    ["This is another possible answer", "An alternative explanation", "A different concept"]

  const CorrectXP: nat := 20
  const WrongXP: nat := 5

  /** What `generateOptions` may return for `answer`: the answer and the three
      distractors in some order. The shuffle is random, so every order is
      allowed. */
  predicate IsOptions(options: seq<string>, answer: string) {
    multiset(options) == multiset([answer] + Distractors)
  }

  /** `options.indexOf(x)`: the first position holding `x`, or -1. */
  function IndexOf(options: seq<string>, x: string): (k: int)
    ensures -1 <= k < |options|
    ensures k == -1 <==> x !in options
    ensures k >= 0 ==> options[k] == x && x !in options[..k]
  {
    if options == [] then -1
    else if options[0] == x then 0
    else
      var k := IndexOf(options[1..], x);
      assert k >= 0 ==> options[..k + 1] == [options[0]] + options[1..][..k];
      if k == -1 then -1 else k + 1
  }

  /** Every arrangement has four options, holds the answer and each
      distractor, and marks a position that really holds the answer. */
  lemma OptionsProperties(options: seq<string>, answer: string)
    requires IsOptions(options, answer)
    ensures |options| == 4
    ensures answer in options && forall d :: d in Distractors ==> d in options
    ensures 0 <= IndexOf(options, answer) < 4 && options[IndexOf(options, answer)] == answer
  {
    assert |multiset(options)| == |multiset([answer] + Distractors)|;
    assert answer in multiset([answer] + Distractors);
    forall d | d in Distractors ensures d in options {
      assert d in multiset([answer] + Distractors);
    }
  }

  /** The unshuffled arrangement is one of them. */
  lemma UnshuffledIsOptions(answer: string)
    ensures IsOptions([answer] + Distractors, answer)
  {
  }

  class MultipleChoiceSession {
    const flashcards: seq<QA>

    var currentIndex: nat
    var selectedAnswer: Option<nat>
    var isAnswered: bool
    var score: nat
    var sessionXP: nat
    var reported: seq<Stats>

    /** The score never exceeds the questions answered, and the XP is 20 per
        right and 5 per wrong answer. */
    predicate Valid()
      reads this
    {
      && (flashcards != [] ==> currentIndex < |flashcards|)
      && score <= Answered()
      && sessionXP == CorrectXP * score + WrongXP * (Answered() - score)
      && (isAnswered <==> selectedAnswer.Some?)
    }

    /** The questions answered so far. */
    function Answered(): nat
      reads this
    {
      currentIndex + (if isAnswered then 1 else 0)
    }

    constructor (flashcards: seq<QA>)
      ensures Valid() && this.flashcards == flashcards
      ensures currentIndex == 0 && selectedAnswer.None? && !isAnswered
      ensures score == 0 && sessionXP == 0 && reported == []
    {
      this.flashcards := flashcards;
      currentIndex := 0;
      selectedAnswer := None;
      isAnswered := false;
      score := 0;
      sessionXP := 0;
      reported := [];
    }

    /** A click on option `index` of the arrangement `options` rendered with
        it. After the first answer, clicks change nothing. */
    method HandleAnswerClick(options: seq<string>, index: nat)
      requires Valid() && flashcards != []
      requires IsOptions(options, flashcards[currentIndex].answer) && index < |options|
      modifies this`selectedAnswer, this`isAnswered, this`score, this`sessionXP
      ensures Valid()
      ensures old(isAnswered) ==>
        selectedAnswer == old(selectedAnswer) && isAnswered && score == old(score) && sessionXP == old(sessionXP)
      ensures !old(isAnswered) ==> isAnswered && selectedAnswer == Some(index)
      ensures !old(isAnswered) && index == IndexOf(options, flashcards[currentIndex].answer) ==>
        score == old(score) + 1 && sessionXP == old(sessionXP) + CorrectXP
      ensures !old(isAnswered) && index != IndexOf(options, flashcards[currentIndex].answer) ==>
        score == old(score) && sessionXP == old(sessionXP) + WrongXP
    {
      var correctAnswerIndex := IndexOf(options, flashcards[currentIndex].answer);
      if isAnswered {
        return;
      }
      selectedAnswer := Some(index);
      isAnswered := true;
      if index == correctAnswerIndex {
        score := score + 1;
        sessionXP := sessionXP + CorrectXP;
      } else {
        sessionXP := sessionXP + WrongXP;
      }
    }

    /** "Next Question" or "Finish Session", shown once answered. The summary
        carries the score and the XP as they are, with no bonus. */
    method HandleNext()
      requires Valid() && flashcards != [] && isAnswered
      modifies this`currentIndex, this`selectedAnswer, this`isAnswered, this`reported
      ensures Valid() && score == old(score) && sessionXP == old(sessionXP)
      ensures old(currentIndex) < |flashcards| - 1 ==>
        currentIndex == old(currentIndex) + 1 && selectedAnswer.None? && !isAnswered && reported == old(reported)
      ensures old(currentIndex) == |flashcards| - 1 ==>
        currentIndex == old(currentIndex) && isAnswered && selectedAnswer == old(selectedAnswer)
        && reported == old(reported) + [QuizSummary(score, |flashcards|, sessionXP)]
      ensures reported != old(reported) ==> score <= |flashcards|
    {
      if currentIndex < |flashcards| - 1 {
        currentIndex := currentIndex + 1;
        selectedAnswer := None;
        isAnswered := false;
      } else {
        reported := reported + [QuizSummary(score, |flashcards|, sessionXP)];
      }
    }
  }

  /** The `{ score, total, xp }` summary. */
  function QuizSummary(score: int, total: int, xp: int): (s: Stats)
    ensures s.Keys == {"score", "total", "xp"}
    ensures s["score"] == Num(score) && s["total"] == Num(total) && s["xp"] == Num(xp)
  {
    map["score" := Num(score), "total" := Num(total), "xp" := Num(xp)]
  }
}
