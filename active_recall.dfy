/** The active-recall session: write an answer, reveal the real one, grade
    yourself. */
module ActiveRecall {
  import opened Text
  import opened StudyTypes
  import opened Api

  const Technique: string := "active-recall"
  const CompletionBonus: nat := 60
  /** The shortest trimmed answer that may be submitted. */
  const MinAnswerLength: nat := 3

  /** The base XP of a self-grade. */
  function GradeXP(correct: bool): (xp: nat)
    ensures xp == 20 || xp == 10
    ensures correct <==> xp == 20
  {
    if correct then 20 else 10
  }

  /** The submit check: at least three UTF-16 code units once trimmed, as
      `trim().length` counts them. */
  predicate LongEnough(answer: string) {
    Utf16Length(Trim(answer)) >= MinAnswerLength
  }

  /** A letter and an emoji pass the check: the emoji is two code units. */
  lemma AstralAnswerLongEnough()
    ensures LongEnough("a\U{1F600}")
  {
    var s := "a\U{1F600}";
    assert !IsSpace(s[0]) && !IsSpace(s[|s| - 1]);
    assert TrimStart(s) == s;
    assert TrimEnd(s) == s;
    Utf16LengthOfAstral();
  }

  class ActiveRecallSession {
    const flashcards: seq<QA>
    const xpCalc: XpCalculator

    var currentIndex: nat
    var userAnswer: string
    var showAnswer: bool
    var sessionXP: nat
    var correctCount: nat
    var alerts: nat
    var awardCalls: seq<AwardCall>
    var reported: seq<Stats>

    /** The index stays on a card, and until the summary is sent the correct
        grades are at most the cards already graded. */
    predicate Valid()
      reads this
    {
      && (flashcards != [] ==> currentIndex < |flashcards|)
      && (reported == [] ==> correctCount <= currentIndex)
    }

    constructor (flashcards: seq<QA>, xpCalc: XpCalculator)
      ensures Valid() && this.flashcards == flashcards && this.xpCalc == xpCalc
      ensures currentIndex == 0 && userAnswer == [] && !showAnswer
      ensures sessionXP == 0 && correctCount == 0 && alerts == 0 && awardCalls == [] && reported == []
    {
      this.flashcards := flashcards;
      this.xpCalc := xpCalc;
      currentIndex := 0;
      userAnswer := [];
      showAnswer := false;
      sessionXP := 0;
      correctCount := 0;
      alerts := 0;
      awardCalls := [];
      reported := [];
    }

    /** The number of words shown under the text area. */
    function WordCountShown(): (n: nat)
      reads this
      ensures n == Words(userAnswer)
    {
      WordCountIsWords(userAnswer);
      WordCount(userAnswer)
    }

    /** Typing into the text area, which is shown while the answer is hidden. */
    method EditAnswer(text: string)
      requires Valid() && flashcards != [] && !showAnswer
      modifies this`userAnswer
      ensures Valid() && userAnswer == text
    {
      userAnswer := text;
    }

    /** "Check Answer": an answer too short once trimmed raises an alert and
        keeps the answer hidden; otherwise the answer is revealed. */
    method HandleSubmitAnswer()
      requires Valid() && flashcards != [] && !showAnswer
      modifies this`showAnswer, this`alerts
      ensures Valid()
      ensures showAnswer <==> LongEnough(userAnswer)
      ensures alerts == old(alerts) + (if LongEnough(userAnswer) then 0 else 1)
    {
      var longEnough := LongEnough(userAnswer);
      if !longEnough {
        alerts := alerts + 1;
        return;
      }
      showAnswer := true;
    }

    /** A self-grade, offered once the answer is shown. Before the last card
        it moves on and clears the answer; on the last card it reports a
        summary that does include this grade. */
    method HandleNext(correct: bool)
      requires Valid() && flashcards != [] && showAnswer
      modifies this`sessionXP, this`correctCount, this`awardCalls, this`currentIndex
      modifies this`userAnswer, this`showAnswer, this`reported
      ensures Valid()
      ensures sessionXP == old(sessionXP) + xpCalc(GradeXP(correct), Technique)
      ensures correctCount == old(correctCount) + (if correct then 1 else 0)
      ensures awardCalls == old(awardCalls) + [AwardCall(ArgText("active_recall"), ArgNum(GradeXP(correct)))]
      ensures old(currentIndex) < |flashcards| - 1 ==>
        currentIndex == old(currentIndex) + 1 && userAnswer == [] && !showAnswer && reported == old(reported)
      ensures old(currentIndex) == |flashcards| - 1 ==>
        currentIndex == old(currentIndex) && userAnswer == old(userAnswer) && showAnswer
        && reported == old(reported) + [XpSummary(sessionXP + CompletionBonus, correctCount, |flashcards|)]
      ensures old(reported) == [] && reported != [] ==> correctCount <= |flashcards|
      ensures alerts == old(alerts)
    {
      var xpAmount := GradeXP(correct);
      var gained := xpCalc(xpAmount, Technique);
      var seenXP, seenCorrect := sessionXP, correctCount;
      sessionXP := sessionXP + gained;
      if correct {
        correctCount := correctCount + 1;
      }
      awardCalls := awardCalls + [AwardCall(ArgText("active_recall"), ArgNum(xpAmount))];
      if currentIndex < |flashcards| - 1 {
        currentIndex := currentIndex + 1;
        userAnswer := [];
        showAnswer := false;
      } else {
        reported := reported + [XpSummary(seenXP + gained + CompletionBonus,
                                          seenCorrect + (if correct then 1 else 0), |flashcards|)];
      }
    }
  }
}
