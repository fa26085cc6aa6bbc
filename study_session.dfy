/** The classic flashcard session: one card after another, graded right or
    wrong, with a running timer. */
module StudySession {
  import opened Wrappers
  import opened Text
  import opened StudyTypes
  import opened Api

  const CorrectXP: nat := 15
  const IncorrectXP: nat := 5
  const CompletionBonus: nat := 50

  /** `${Math.floor(s / 60)}:${(s % 60).toString().padStart(2, "0")}` */
  function FormatTime(seconds: nat): string {
    NatToString(seconds / 60) + ":" + PadStart2(NatToString(seconds % 60))
  }

  /** The clock display reads back as the number of seconds it shows. */
  lemma FormatTimeRoundTrip(seconds: nat)
    ensures ParseClock(FormatTime(seconds)) == Some(seconds)
  {
    ClockReadsBack(seconds / 60, seconds % 60, seconds);
  }

  lemma ClockReadsBack(q: nat, r: nat, total: nat)
    requires r < 60 && total == q * 60 + r
    ensures ParseClock(NatToString(q) + ":" + PadStart2(NatToString(r))) == Some(total)
  {
    var m, sec := NatToString(q), PadStart2(NatToString(r));
    PaddedReadsBack(r);
    ParseNatToString(q);
    ParseClockOfValues(m + ":" + sec, m, sec, q, r, total);
  }

  /** The seconds are always two digits, the minutes as many as they need. */
  lemma FormatTimeShape(seconds: nat)
    ensures var t := FormatTime(seconds);
            |t| >= 4 && t[|t| - 3] == ':' && |t| == |NatToString(seconds / 60)| + 3
  {
    NatToStringShort(seconds % 60);
  }

  /** The summary handed to `onSessionComplete`. */
  function SessionSummary(xp: int, completed: int, total: int, timeSpent: int): (s: Stats)
    ensures s.Keys == {"xp", "completed", "total", "timeSpent"}
    ensures s["xp"] == Num(xp) && s["completed"] == Num(completed) && s["total"] == Num(total)
    ensures s["timeSpent"] == Num(timeSpent)
  {
    XpSummary(xp, completed, total)["timeSpent" := Num(timeSpent)]
  }

  class StudySession {
    const flashcards: seq<QA>

    var currentCardIndex: nat
    var sessionXP: nat
    var correctCount: nat
    var reviewCount: nat
    var elapsedTime: nat
    var awardCalls: seq<AwardCall>
    var reported: seq<Stats>

    /** The index stays on a card, and the XP is what the answers earned. */
    predicate Valid()
      reads this
    {
      && (flashcards != [] ==> currentCardIndex < |flashcards|)
      && sessionXP == CorrectXP * correctCount + IncorrectXP * reviewCount
      && |awardCalls| == correctCount + reviewCount
    }

    constructor (flashcards: seq<QA>)
      ensures Valid() && this.flashcards == flashcards
      ensures currentCardIndex == 0 && sessionXP == 0 && correctCount == 0 && reviewCount == 0
      ensures elapsedTime == 0 && awardCalls == [] && reported == []
    {
      this.flashcards := flashcards;
      currentCardIndex := 0;
      sessionXP := 0;
      correctCount := 0;
      reviewCount := 0;
      elapsedTime := 0;
      awardCalls := [];
      reported := [];
    }

    /** The one-second interval: whole seconds since the session started. */
    method TimerTick(millisSinceStart: nat)
      requires Valid()
      modifies this`elapsedTime
      ensures Valid() && elapsedTime == millisSinceStart / 1000
    {
      elapsedTime := millisSinceStart / 1000;
    }

    /** `moveToNextCard` as scheduled by an answer: it sees the index, XP,
        count and time of the render in which the answer was given. */
    method MoveToNextCard(seenIndex: nat, seenXP: nat, seenCorrect: nat, seenElapsed: nat)
      requires Valid() && flashcards != [] && seenIndex == currentCardIndex
      modifies this`currentCardIndex, this`reported
      ensures Valid()
      ensures seenIndex < |flashcards| - 1 ==> currentCardIndex == seenIndex + 1 && reported == old(reported)
      ensures seenIndex >= |flashcards| - 1 ==>
        currentCardIndex == old(currentCardIndex)
        && reported == old(reported) + [SessionSummary(seenXP + CompletionBonus, seenCorrect, |flashcards|, seenElapsed)]
    {
      if seenIndex < |flashcards| - 1 {
        currentCardIndex := currentCardIndex + 1;
      } else {
        reported := reported + [SessionSummary(seenXP + CompletionBonus, seenCorrect, |flashcards|, seenElapsed)];
      }
    }

    /** "Got It!": 15 XP and one more correct answer, then the next card, or
        the summary, which does not yet include this answer. */
    method HandleCorrect()
      requires Valid() && flashcards != []
      modifies this`sessionXP, this`correctCount, this`awardCalls, this`currentCardIndex, this`reported
      ensures Valid()
      ensures sessionXP == old(sessionXP) + CorrectXP && correctCount == old(correctCount) + 1
      ensures reviewCount == old(reviewCount)
      ensures awardCalls == old(awardCalls) + [AwardCall(ArgText("correct_answer"), ArgNum(15))]
      ensures old(currentCardIndex) < |flashcards| - 1 ==>
        currentCardIndex == old(currentCardIndex) + 1 && reported == old(reported)
      ensures old(currentCardIndex) == |flashcards| - 1 ==>
        currentCardIndex == old(currentCardIndex)
        && reported == old(reported) + [SessionSummary(old(sessionXP) + CompletionBonus, old(correctCount), |flashcards|, elapsedTime)]
    {
      var seenIndex, seenXP, seenCorrect, seenElapsed := currentCardIndex, sessionXP, correctCount, elapsedTime;
      sessionXP := sessionXP + CorrectXP;
      correctCount := correctCount + 1;
      awardCalls := awardCalls + [AwardCall(ArgText("correct_answer"), ArgNum(15))];
      MoveToNextCard(seenIndex, seenXP, seenCorrect, seenElapsed);
    }

    /** "Need to Review": 5 XP and one more review, the correct count stays,
        then the next card or the summary. */
    method HandleIncorrect()
      requires Valid() && flashcards != []
      modifies this`sessionXP, this`reviewCount, this`awardCalls, this`currentCardIndex, this`reported
      ensures Valid()
      ensures sessionXP == old(sessionXP) + IncorrectXP && reviewCount == old(reviewCount) + 1
      ensures correctCount == old(correctCount)
      ensures awardCalls == old(awardCalls) + [AwardCall(ArgText("correct_answer"), ArgNum(5))]
      ensures old(currentCardIndex) < |flashcards| - 1 ==>
        currentCardIndex == old(currentCardIndex) + 1 && reported == old(reported)
      ensures old(currentCardIndex) == |flashcards| - 1 ==>
        currentCardIndex == old(currentCardIndex)
        && reported == old(reported) + [SessionSummary(old(sessionXP) + CompletionBonus, old(correctCount), |flashcards|, elapsedTime)]
    {
      var seenIndex, seenXP, seenCorrect, seenElapsed := currentCardIndex, sessionXP, correctCount, elapsedTime;
      sessionXP := sessionXP + IncorrectXP;
      reviewCount := reviewCount + 1;
      awardCalls := awardCalls + [AwardCall(ArgText("correct_answer"), ArgNum(5))];
      MoveToNextCard(seenIndex, seenXP, seenCorrect, seenElapsed);
    }
  }
}
