/** The spaced-repetition session: a queue of cards in which a graded card is
    taken out and put back a rating-dependent number of places later. */
module SpacedRepetition {
  import opened Wrappers
  import opened StudyTypes
  import opened Api

  /** A card of the queue: the card itself and its review bookkeeping. */
  datatype SrCard = SrCard(card: QA, id: nat, difficulty: int, nextReview: int, reviews: nat)

  /** The queue built from the session's cards: same order, card `i` has id
      `i`, difficulty 0 (new) and no reviews yet. */
  function InitialQueue(flashcards: seq<QA>): (q: seq<SrCard>)
    ensures |q| == |flashcards|
    ensures forall i :: 0 <= i < |q| ==> q[i].card == flashcards[i] && q[i].id == i
    ensures forall i :: 0 <= i < |q| ==> q[i].difficulty == 0 && q[i].nextReview == 0 && q[i].reviews == 0
  {
    seq(|flashcards|, i requires 0 <= i < |flashcards| => SrCard(flashcards[i], i, 0, 0, 0))
  }

  /** The XP base amount and the number of places a card moves back, for each
      rating: 1 "Again", 2 "Good", 3 "Easy", anything else the default. */
  function Schedule(rating: int): (r: (nat, nat))
    ensures r.1 >= 1
  {
    if rating == 1 then (5, 1)
    else if rating == 2 then (15, 3)
    else if rating == 3 then (25, 10)
    else (10, 2)
  }

  /** A card rated lower comes back sooner and earns less. */
  lemma ScheduleMonotone(a: int, b: int)
    requires 1 <= a < b <= 3
    ensures Schedule(a).0 < Schedule(b).0 && Schedule(a).1 < Schedule(b).1
  {
  }

  // ---------------------------------------------------------------------------
  // `splice` as a function on sequences

  /** `q.splice(i, 1)` */
  function Remove<T>(q: seq<T>, i: nat): (r: seq<T>)
    requires i < |q|
    ensures |r| == |q| - 1
    ensures forall k :: 0 <= k < i ==> r[k] == q[k]
    ensures forall k :: i <= k < |r| ==> r[k] == q[k + 1]
  {
    q[..i] + q[i + 1..]
  }

  /** `q.splice(j, 0, x)` */
  function InsertAt<T>(q: seq<T>, j: nat, x: T): (r: seq<T>)
    requires j <= |q|
    ensures |r| == |q| + 1 && r[j] == x
    ensures forall k :: 0 <= k < j ==> r[k] == q[k]
    ensures forall k :: j < k < |r| ==> r[k] == q[k - 1]
  {
    q[..j] + [x] + q[j..]
  }

  /** Where a card at `i` goes back to: `min(i + offset, length after removal)`. */
  function Target(n: nat, i: nat, offset: nat): (j: nat)
    requires i < n
    ensures i <= j < n
  {
    Min(i + offset, n - 1)
  }

  /** The queue after the card at `i` moved `offset` places back. */
  function Reinsert<T>(q: seq<T>, i: nat, offset: nat): seq<T>
    requires i < |q|
  {
    InsertAt(Remove(q, i), Target(|q|, i, offset), q[i])
  }

  /** Reinserting never shrinks (nor grows) the queue, puts the card at its
      target, and moves nothing else but the cards it passes, each one place
      forward. */
  lemma ReinsertShape<T>(q: seq<T>, i: nat, offset: nat)
    requires i < |q|
    ensures var r, j := Reinsert(q, i, offset), Target(|q|, i, offset);
            && |r| == |q|
            && r[j] == q[i]
            && (forall k :: 0 <= k < i ==> r[k] == q[k])
            && (forall k :: i <= k < j ==> r[k] == q[k + 1])
            && (forall k :: j < k < |q| ==> r[k] == q[k])
  {
  }

  /** Reinserting is a permutation of the queue. */
  lemma ReinsertPermutes<T>(q: seq<T>, i: nat, offset: nat)
    requires i < |q|
    ensures multiset(Reinsert(q, i, offset)) == multiset(q)
  {
    var j := Target(|q|, i, offset);
    var rest := Remove(q, i);
    assert q == q[..i] + [q[i]] + q[i + 1..];
    assert rest == q[..i] + q[i + 1..];
    assert rest == rest[..j] + rest[j..];
    calc {
      multiset(Reinsert(q, i, offset));
      multiset(rest[..j] + [q[i]] + rest[j..]);
      multiset(rest[..j]) + multiset([q[i]]) + multiset(rest[j..]);
      multiset(rest) + multiset([q[i]]);
      multiset(q[..i]) + multiset(q[i + 1..]) + multiset([q[i]]);
      multiset(q);
    }
  }

  /** The two worked cases: "Again" on the head of three cards swaps the first
      two; "Easy" on the head of five sends it to the end. */
  lemma ReinsertExamples<T>(c1: T, c2: T, c3: T, c4: T, c5: T)
    ensures Reinsert([c1, c2, c3], 0, Schedule(1).1) == [c2, c1, c3]
    ensures Reinsert([c1, c2, c3, c4, c5], 0, Schedule(3).1) == [c2, c3, c4, c5, c1]
  {
    assert Remove([c1, c2, c3], 0) == [c2, c3];
    assert Remove([c1, c2, c3, c4, c5], 0) == [c2, c3, c4, c5];
  }

  /** An "Easy" card in a queue of at most eleven cards goes to the back. */
  lemma EasyGoesLast<T>(q: seq<T>, i: nat)
    requires i < |q| <= 11
    ensures Reinsert(q, i, Schedule(3).1)[|q| - 1] == q[i]
  {
    ReinsertShape(q, i, Schedule(3).1);
  }

  // ---------------------------------------------------------------------------
  // Grading

  /** The graded card: its difficulty becomes the rating and it has one more review. */
  function Graded(c: SrCard, rating: int): (g: SrCard)
    ensures g.card == c.card && g.id == c.id && g.nextReview == c.nextReview
    ensures g.difficulty == rating && g.reviews == c.reviews + 1
  {
    c.(difficulty := rating, reviews := c.reviews + 1)
  }

  /** `findIndex((c) => c.id === id)` */
  function IndexOfId(q: seq<SrCard>, id: nat): (k: int)
    ensures -1 <= k < |q|
    ensures k == -1 <==> forall i :: 0 <= i < |q| ==> q[i].id != id
    ensures k >= 0 ==> q[k].id == id && forall i :: 0 <= i < k ==> q[i].id != id
  {
    if q == [] then -1
    else if q[0].id == id then 0
    else
      var k := IndexOfId(q[1..], id);
      if k == -1 then -1 else k + 1
  }

  /** The queue after the card with `id` is graded: unchanged when no card
      has that id. */
  function GradeQueue(q: seq<SrCard>, id: nat, rating: int): seq<SrCard> {
    var i := IndexOfId(q, id);
    if i == -1 then q
    else Reinsert(q[i := Graded(q[i], rating)], i, Schedule(rating).1)
  }

  function Ids(q: seq<SrCard>): (ids: seq<nat>)
    ensures |ids| == |q| && forall i :: 0 <= i < |q| ==> ids[i] == q[i].id
  {
    seq(|q|, i requires 0 <= i < |q| => q[i].id)
  }

  /** Grading keeps the length, keeps the multiset of ids, and changes only the
      graded card and the positions it passes. */
  lemma GradeQueueProperties(q: seq<SrCard>, id: nat, rating: int)
    ensures |GradeQueue(q, id, rating)| == |q|
    ensures multiset(Ids(GradeQueue(q, id, rating))) == multiset(Ids(q))
    ensures IndexOfId(q, id) == -1 ==> GradeQueue(q, id, rating) == q
  {
    var i := IndexOfId(q, id);
    if i >= 0 {
      var u := q[i := Graded(q[i], rating)];
      assert Ids(u) == Ids(q);
      ReinsertPermutes(Ids(u), i, Schedule(rating).1);
      IdsOfReinsert(u, i, Schedule(rating).1);
    }
  }

  /** Grading the head of the queue is the general grading by id: the head
      is the first card with its own id. */
  lemma GradeHead(q: seq<SrCard>, rating: int)
    requires q != []
    ensures GradeQueue(q, q[0].id, rating) == Reinsert(q[0 := Graded(q[0], rating)], 0, Schedule(rating).1)
    ensures |GradeQueue(q, q[0].id, rating)| == |q|
    ensures multiset(Ids(GradeQueue(q, q[0].id, rating))) == multiset(Ids(q))
  {
    GradeQueueProperties(q, q[0].id, rating);
  }

  /** Reinserting commutes with taking the ids. */
  lemma IdsOfReinsert(u: seq<SrCard>, i: nat, offset: nat)
    requires i < |u|
    ensures Ids(Reinsert(u, i, offset)) == Reinsert(Ids(u), i, offset)
  {
    var r, t := Reinsert(u, i, offset), Reinsert(Ids(u), i, offset);
    ReinsertShape(u, i, offset);
    ReinsertShape(Ids(u), i, offset);
    assert |Ids(r)| == |t|;
    forall k | 0 <= k < |t| ensures Ids(r)[k] == t[k] {
    }
  }

  // ---------------------------------------------------------------------------
  // The same operations run in place, as the component runs them on its copy

  /** `findIndex` over the copied array. */
  method FindById(a: array<SrCard>, id: nat) returns (idx: int)
    ensures idx == IndexOfId(a[..], id)
  {
    idx := 0;
    while idx < a.Length && a[idx].id != id
      invariant 0 <= idx <= a.Length
      invariant forall k :: 0 <= k < idx ==> a[k].id != id
    {
      idx := idx + 1;
    }
    if idx == a.Length {
      idx := -1;
    }
  }

  /** `a.splice(from, 1)` followed by `a.splice(to, 0, card)` on the same
      array: the cards in between shift one place forward. */
  method Resequence(a: array<SrCard>, from: nat, to: nat)
    requires from <= to < a.Length
    modifies a
    ensures a[..] == InsertAt(Remove(old(a[..]), from), to, old(a[from]))
  {
    var c := a[from];
    var k := from;
    while k < to
      invariant from <= k <= to
      invariant forall m :: 0 <= m < from ==> a[m] == old(a[m])
      invariant forall m :: from <= m < k ==> a[m] == old(a[m + 1])
      invariant forall m :: k < m < a.Length ==> a[m] == old(a[m])
    {
      a[k] := a[k + 1];
      k := k + 1;
    }
    a[to] := c;
    ghost var want := InsertAt(Remove(old(a[..]), from), to, c);
    assert |want| == a.Length;
    forall m | 0 <= m < a.Length ensures a[m] == want[m] {
    }
    assert a[..] == want;
  }

  // ---------------------------------------------------------------------------
  // The component

  const Technique: string := "spaced-repetition"
  const CompletionBonus: nat := 75

  class SpacedRepetitionSession {
    const flashcards: seq<QA>
    const xpCalc: XpCalculator

    var cardQueue: seq<SrCard>
    var currentCard: Option<SrCard>
    var showAnswer: bool
    var sessionXP: nat
    var cardsReviewed: nat
    /** Every `awardXP` call made, in order, with the arguments as passed. */
    var awardCalls: seq<AwardCall>
    /** Every summary handed to `onSessionComplete`, in order. */
    var reported: seq<Stats>

    /** The current card is the head of the queue (the very same object in
        the component), and the queue always holds one entry per card. */
    predicate Valid()
      reads this
    {
      && |cardQueue| == |flashcards|
      && (currentCard.Some? <==> |cardQueue| > 0)
      && (currentCard.Some? ==> currentCard.value == cardQueue[0])
      && multiset(Ids(cardQueue)) == multiset(Ids(InitialQueue(flashcards)))
    }

    /** The component after its mounting effect: an empty deck leaves the
        session on its loading screen. */
    constructor (flashcards: seq<QA>, xpCalc: XpCalculator)
      ensures Valid()
      ensures this.flashcards == flashcards && this.xpCalc == xpCalc
      ensures cardQueue == InitialQueue(flashcards)
      ensures currentCard == (if flashcards == [] then None else Some(cardQueue[0]))
      ensures !showAnswer && sessionXP == 0 && cardsReviewed == 0 && awardCalls == [] && reported == []
    {
      this.flashcards := flashcards;
      this.xpCalc := xpCalc;
      cardQueue := InitialQueue(flashcards);
      currentCard := if flashcards == [] then None else Some(InitialQueue(flashcards)[0]);
      showAnswer := false;
      sessionXP := 0;
      cardsReviewed := 0;
      awardCalls := [];
      reported := [];
    }

    /** "Show Answer", rendered once a card is loaded. */
    method HandleShowAnswer()
      requires Valid() && currentCard.Some?
      modifies this`showAnswer
      ensures Valid() && showAnswer
    {
      showAnswer := true;
    }

    /** A difficulty button, rendered while the answer is shown. The summary
        is built from the values of the render the click came from, so it
        reports the XP and the count from before this grading. */
    method HandleDifficulty(rating: int)
      requires Valid() && currentCard.Some? && showAnswer
      modifies this`sessionXP, this`cardsReviewed, this`awardCalls, this`cardQueue, this`currentCard,
        this`showAnswer, this`reported
      ensures Valid()
      ensures sessionXP == old(sessionXP) + xpCalc(Schedule(rating).0, Technique)
      ensures cardsReviewed == old(cardsReviewed) + 1
      ensures awardCalls == old(awardCalls) + [AwardCall(ArgText("spaced_repetition"), ArgNum(Schedule(rating).0))]
      ensures cardQueue == Reinsert(old(cardQueue)[0 := Graded(old(cardQueue)[0], rating)], 0, Schedule(rating).1)
      ensures |cardQueue| > 1 ==> currentCard == Some(cardQueue[0]) && !showAnswer && reported == old(reported)
      ensures |cardQueue| <= 1 ==> showAnswer
      ensures |cardQueue| <= 1 ==>
        reported == old(reported) + [XpSummary(old(sessionXP) + CompletionBonus, old(cardsReviewed), |flashcards|)]
    {
      var summary := XpSummary(sessionXP + CompletionBonus, cardsReviewed, |flashcards|);
      Award(Schedule(rating).0);
      var graded := GradeCopy(cardQueue, rating);
      ShowNext(graded, summary);
    }

    /** The grade's XP, the count of cards reviewed and the `awardXP` call. */
    method Award(xpAmount: nat)
      modifies this`sessionXP, this`cardsReviewed, this`awardCalls
      ensures sessionXP == old(sessionXP) + xpCalc(xpAmount, Technique)
      ensures cardsReviewed == old(cardsReviewed) + 1
      ensures awardCalls == old(awardCalls) + [AwardCall(ArgText("spaced_repetition"), ArgNum(xpAmount))]
    {
      sessionXP := sessionXP + xpCalc(xpAmount, Technique);
      cardsReviewed := cardsReviewed + 1;
      awardCalls := awardCalls + [AwardCall(ArgText("spaced_repetition"), ArgNum(xpAmount))];
    }

    /** The new queue and its head; with more than one card the answer is
        hidden again, otherwise the session reports `summary`. With one card
        left, the mutated card object is the current card and the queue's
        only entry. */
    method ShowNext(graded: seq<SrCard>, summary: Stats)
      requires graded != []
      modifies this`cardQueue, this`currentCard, this`showAnswer, this`reported
      ensures cardQueue == graded && currentCard == Some(graded[0])
      ensures |graded| > 1 ==> !showAnswer && reported == old(reported)
      ensures |graded| <= 1 ==> showAnswer == old(showAnswer) && reported == old(reported) + [summary]
    {
      cardQueue, currentCard := graded, Some(graded[0]);
      if |graded| > 1 {
        showAnswer := false;
      } else {
        reported := reported + [summary];
      }
    }
  }

  /** The grading run on a copy of the queue whose head is the current card:
      find it, mark it graded, move it back in place. */
  method GradeCopy(q: seq<SrCard>, rating: int) returns (r: seq<SrCard>)
    requires q != []
    ensures r == Reinsert(q[0 := Graded(q[0], rating)], 0, Schedule(rating).1)
    ensures |r| == |q| && multiset(Ids(r)) == multiset(Ids(q))
  {
    GradeHead(q, rating);
    var updated := new SrCard[|q|](i requires 0 <= i < |q| => q[i]);
    assert updated[..] == q;
    var currentIndex := FindById(updated, q[0].id);
    assert currentIndex == 0;
    var card := Graded(updated[currentIndex], rating);
    updated[currentIndex] := card;
    ghost var marked := updated[..];
    assert marked == q[0 := card];
    var insertIndex := Target(updated.Length, currentIndex, Schedule(rating).1);
    Resequence(updated, currentIndex, insertIndex);
    r := updated[..];
  }

  /** Completion is reached only with a deck of at most one card: grading
      keeps the queue as long as the deck. */
  lemma CompletesOnlySmallDecks(q: seq<SrCard>, id: nat, rating: int)
    ensures |GradeQueue(q, id, rating)| <= 1 <==> |q| <= 1
  {
    GradeQueueProperties(q, id, rating);
  }
}
