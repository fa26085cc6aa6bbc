/** The Feynman session: explain the concept in your own words, then compare
    with the answer. */
module Feynman {
  import opened Text
  import opened StudyTypes

  /** The fewest words that unlock the comparison. */
  const MinWords: nat := 10

  /** The XP of a graded card; there is no completion bonus. */
  function UnderstoodXP(understood: bool): (xp: nat)
    ensures understood <==> xp == 30
    ensures !understood <==> xp == 10
  {
    if understood then 30 else 10
  }

  class FeynmanSession {
    const flashcards: seq<QA>

    var currentIndex: nat
    var userExplanation: string
    var showAnswer: bool
    var sessionXP: nat
    var completedCards: nat
    var reported: seq<Stats>

    /** Until the summary is sent, one card has been completed per card
        passed, each worth 10 or 30 XP. */
    predicate Valid()
      reads this
    {
      && (flashcards != [] ==> currentIndex < |flashcards|)
      && (reported == [] ==> completedCards == currentIndex)
      && 10 * completedCards <= sessionXP <= 30 * completedCards
    }

    constructor (flashcards: seq<QA>)
      ensures Valid() && this.flashcards == flashcards
      ensures currentIndex == 0 && userExplanation == [] && !showAnswer
      ensures sessionXP == 0 && completedCards == 0 && reported == []
    {
      this.flashcards := flashcards;
      currentIndex := 0;
      userExplanation := [];
      showAnswer := false;
      sessionXP := 0;
      completedCards := 0;
      reported := [];
    }

    /** The reveal button is enabled once the explanation has ten words. */
    predicate RevealEnabled()
      reads this
    {
      !showAnswer && WordCount(userExplanation) >= MinWords
    }

    /** The word count the button tests is the number of maximal runs of
        non-blank characters in the explanation. */
    lemma RevealEnabledByWords()
      ensures RevealEnabled() <==> !showAnswer && Words(userExplanation) >= MinWords
    {
      WordCountIsWords(userExplanation);
    }

    method EditExplanation(text: string)
      requires Valid() && flashcards != [] && !showAnswer
      modifies this`userExplanation
      ensures Valid() && userExplanation == text
    {
      userExplanation := text;
    }

    /** "Compare with Answer", which cannot be pressed while disabled. */
    method HandleShowAnswer()
      requires Valid() && flashcards != [] && RevealEnabled()
      modifies this`showAnswer
      ensures Valid() && showAnswer
    {
      showAnswer := true;
    }

    /** A self-grade, offered with the answer. Before the last card it moves on
        and clears the explanation; on the last card it reports every card
        completed and the XP including this grade. */
    method HandleNext(understood: bool)
      requires Valid() && flashcards != [] && showAnswer
      modifies this`sessionXP, this`completedCards, this`currentIndex, this`userExplanation
      modifies this`showAnswer, this`reported
      ensures Valid()
      ensures sessionXP == old(sessionXP) + UnderstoodXP(understood)
      ensures completedCards == old(completedCards) + 1
      ensures old(currentIndex) < |flashcards| - 1 ==>
        currentIndex == old(currentIndex) + 1 && userExplanation == [] && !showAnswer && reported == old(reported)
      ensures old(currentIndex) == |flashcards| - 1 ==>
        currentIndex == old(currentIndex) && showAnswer && userExplanation == old(userExplanation)
        && reported == old(reported) + [XpSummary(sessionXP, completedCards, |flashcards|)]
      ensures old(reported) == [] && reported != [] ==> completedCards == |flashcards|
    {
      var xpEarned := UnderstoodXP(understood);
      var seenXP, seenCompleted := sessionXP, completedCards;
      sessionXP := seenXP + xpEarned;
      completedCards := seenCompleted + 1;
      if currentIndex < |flashcards| - 1 {
        currentIndex := currentIndex + 1;
        userExplanation := [];
        showAnswer := false;
      } else {
        reported := reported + [XpSummary(seenXP + xpEarned, seenCompleted + 1, |flashcards|)];
      }
    }
  }
}
