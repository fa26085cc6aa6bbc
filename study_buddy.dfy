/** The two-player study-buddy session: players take turns, one card each. */
module StudyBuddy {
  import opened Text
  import opened StudyTypes
  import opened Api

  const Technique: string := "study-buddy"
  const CompletionBonus: nat := 100
  /** The `maxLength` of both name inputs. */
  const MaxNameLength: nat := 20

  function AnswerXP(correct: bool): (xp: nat)
    ensures correct <==> xp == 15
    ensures !correct <==> xp == 5
  {
    if correct then 15 else 5
  }

  /** Whose turn card `index` is: player 1 on even cards, player 2 on odd. */
  function TurnAt(index: nat): (turn: int)
    ensures turn == 1 || turn == 2
    ensures turn == 1 <==> index % 2 == 0
  {
    1 + index % 2
  }

  /** Passing a card hands the turn to the other player. */
  lemma TurnAlternates(index: nat)
    ensures TurnAt(index + 1) == (if TurnAt(index) == 1 then 2 else 1)
  {
  }

  /** The score bound of the invariant, one card further: card `index` may
      give its own player one more point, and never more than the cards
      played. */
  lemma ScoresStep(index: nat, p1: nat, p2: nat, correct: bool)
    requires p1 <= (index + 1) / 2 && p2 <= index / 2
    ensures p1 + (if correct && TurnAt(index) == 1 then 1 else 0) <= (index + 2) / 2
    ensures p2 + (if correct && TurnAt(index) == 2 then 1 else 0) <= (index + 1) / 2
    ensures p1 + p2 <= index
  {
  }

  /** The names the setup screen starts with. */
  const DefaultName1: string := "Player 1"
  const DefaultName2: string := "Player 2"

  /** Both names fit the inputs' `maxLength`, which counts UTF-16 code units. */
  predicate NamesFit(name1: string, name2: string) {
    Utf16Length(name1) <= MaxNameLength && Utf16Length(name2) <= MaxNameLength
  }

  /** The default names fit the 20-unit input. */
  lemma DefaultNamesFit()
    ensures NamesFit(DefaultName1, DefaultName2)
  {
    assert |DefaultName1| == 8 && |DefaultName2| == 8;
  }

  class StudyBuddySession {
    const flashcards: seq<QA>
    const xpCalc: XpCalculator

    var currentIndex: nat
    var showAnswer: bool
    var player1Score: nat
    var player2Score: nat
    var currentTurn: int
    var sessionXP: nat
    var player1Name: string
    var player2Name: string
    var namesSet: bool
    var awardCalls: seq<AwardCall>
    var reported: seq<Stats>

    /** The turn follows the card, and until the summary each player has
        scored at most once per own card already played. */
    predicate Valid()
      reads this
    {
      && (flashcards != [] ==> currentIndex < |flashcards|)
      && currentTurn == TurnAt(currentIndex)
      && NamesFit(player1Name, player2Name)
      && (reported == [] ==> player1Score <= (currentIndex + 1) / 2 && player2Score <= currentIndex / 2)
    }

    constructor (flashcards: seq<QA>, xpCalc: XpCalculator)
      ensures Valid() && this.flashcards == flashcards && this.xpCalc == xpCalc
      ensures currentIndex == 0 && !showAnswer && currentTurn == 1 && !namesSet
      ensures player1Score == 0 && player2Score == 0 && sessionXP == 0
      ensures player1Name == DefaultName1 && player2Name == DefaultName2
      ensures awardCalls == [] && reported == []
    {
      this.flashcards := flashcards;
      this.xpCalc := xpCalc;
      currentIndex := 0;
      showAnswer := false;
      player1Score := 0;
      player2Score := 0;
      currentTurn := 1;
      sessionXP := 0;
      DefaultNamesFit();
      player1Name := DefaultName1;
      player2Name := DefaultName2;
      namesSet := false;
      awardCalls := [];
      reported := [];
    }

    /** Typing a name on the setup screen; `maxLength` holds the input to 20
        UTF-16 code units. */
    method EditNames(name1: string, name2: string)
      requires Valid() && flashcards != [] && !namesSet
      requires NamesFit(name1, name2)
      modifies this`player1Name, this`player2Name
      ensures Valid() && player1Name == name1 && player2Name == name2
    {
      player1Name := name1;
      player2Name := name2;
    }

    /** "Start Competition": play starts only when both names have a
        character that is not white space. */
    method HandleSetNames()
      requires Valid() && flashcards != [] && !namesSet
      modifies this`namesSet
      ensures Valid()
      ensures namesSet <==> !AllSpaces(player1Name) && !AllSpaces(player2Name)
    {
      var named1, named2 := Trim(player1Name) != [], Trim(player2Name) != [];
      if named1 && named2 {
        namesSet := true;
      }
    }

    method HandleShowAnswer()
      requires Valid() && flashcards != [] && namesSet && !showAnswer
      modifies this`showAnswer
      ensures Valid() && showAnswer
    {
      showAnswer := true;
    }

    /** A verdict on the current player's answer: a right answer scores for
        that player only; then the turn passes with the card, or, on the last
        card, the summary counts the points of the earlier turns only. */
    method HandleAnswer(correct: bool)
      requires Valid() && flashcards != [] && namesSet && showAnswer
      modifies this`sessionXP, this`player1Score, this`player2Score, this`awardCalls, this`currentIndex,
        this`showAnswer, this`currentTurn, this`reported
      ensures Valid()
      ensures sessionXP == old(sessionXP) + xpCalc(AnswerXP(correct), Technique)
      ensures player1Score == old(player1Score) + (if correct && old(currentTurn) == 1 then 1 else 0)
      ensures player2Score == old(player2Score) + (if correct && old(currentTurn) == 2 then 1 else 0)
      ensures awardCalls == old(awardCalls) + [AwardCall(ArgText("study_buddy"), ArgNum(AnswerXP(correct)))]
      ensures player1Name == old(player1Name) && player2Name == old(player2Name) && namesSet
      ensures old(currentIndex) < |flashcards| - 1 ==>
        currentIndex == old(currentIndex) + 1 && !showAnswer && currentTurn != old(currentTurn)
        && reported == old(reported)
      ensures old(currentIndex) == |flashcards| - 1 ==>
        currentIndex == old(currentIndex) && showAnswer && currentTurn == old(currentTurn)
        && reported == old(reported) + [XpSummary(sessionXP + CompletionBonus,
                                                  old(player1Score) + old(player2Score), |flashcards|)]
      ensures old(reported) == [] && reported != [] ==> old(player1Score) + old(player2Score) < |flashcards|
    {
      var xpAmount := AnswerXP(correct);
      var gained := xpCalc(xpAmount, Technique);
      var summary := XpSummary(sessionXP + gained + CompletionBonus, player1Score + player2Score, |flashcards|);
      if reported == [] {
        ScoresStep(currentIndex, player1Score, player2Score, correct);
      }
      TurnAlternates(currentIndex);
      Score(correct, gained);
      PassCard(summary);
    }

    /** The verdict's points: the XP, a point for the current player on a
        right answer, and the `awardXP` call. */
    method Score(correct: bool, gained: nat)
      modifies this`sessionXP, this`player1Score, this`player2Score, this`awardCalls
      ensures sessionXP == old(sessionXP) + gained
      ensures player1Score == old(player1Score) + (if correct && currentTurn == 1 then 1 else 0)
      ensures player2Score == old(player2Score) + (if correct && currentTurn != 1 then 1 else 0)
      ensures awardCalls == old(awardCalls) + [AwardCall(ArgText("study_buddy"), ArgNum(AnswerXP(correct)))]
    {
      sessionXP := sessionXP + gained;
      if correct {
        if currentTurn == 1 {
          player1Score := player1Score + 1;
        } else {
          player2Score := player2Score + 1;
        }
      }
      awardCalls := awardCalls + [AwardCall(ArgText("study_buddy"), ArgNum(AnswerXP(correct)))];
    }

    /** After the verdict: the next card for the other player, or on the last
        card the summary. */
    method PassCard(summary: Stats)
      requires flashcards != [] && currentIndex < |flashcards|
      modifies this`currentIndex, this`showAnswer, this`currentTurn, this`reported
      ensures old(currentIndex) < |flashcards| - 1 ==>
        currentIndex == old(currentIndex) + 1 && !showAnswer && reported == old(reported)
        && currentTurn == (if old(currentTurn) == 1 then 2 else 1)
      ensures old(currentIndex) == |flashcards| - 1 ==>
        currentIndex == old(currentIndex) && showAnswer == old(showAnswer) && currentTurn == old(currentTurn)
        && reported == old(reported) + [summary]
    {
      if currentIndex < |flashcards| - 1 {
        currentIndex := currentIndex + 1;
        showAnswer := false;
        currentTurn := if currentTurn == 1 then 2 else 1;
      } else {
        reported := reported + [summary];
      }
    }
  }
}
