/** The study page: it reads the saved choices, loads the cards (from the
    generator, or from the retrieval service, falling back to a mock set),
    picks the session component for the technique, and keeps the stats the
    session reports. */
module StudyPage {
  import opened Wrappers
  import opened Text
  import opened StudyTypes
  import opened Api

  // ---------------------------------------------------------------------------
  // The mock card set

  /** The five question templates, cycled through by the mock set. */
  function MockTemplates(topic: string): (qs: seq<QA>)
    ensures |qs| == 5
    ensures forall i :: 0 <= i < 5 ==> Contains(qs[i].question, topic)
  {
    ContainsMiddle("What is the main concept of ", topic, "?");
    ContainsMiddle("Why is ", topic, " important?");
    ContainsMiddle("How does ", topic, " work?");
    ContainsMiddle("What are key components of ", topic, "?");
    ContainsMiddle("When should you use ", topic, "?");
    [ QA("What is the main concept of " + topic + "?", "This is a fundamental concept."),
      QA("Why is " + topic + " important?", "It forms the foundation."),
      QA("How does " + topic + " work?", "Through interconnected processes."),
      QA("What are key components of " + topic + "?", "Essential elements."),
      QA("When should you use " + topic + "?", "When applying this knowledge.") ]
  }

  /** The first three templates are the fallback cards of `generateFlashcards`. */
  lemma TemplatesExtendFallback(topic: string)
    ensures MockTemplates(topic)[..3] == FallbackCards(topic)
  {
  }

  /** The length `Array.from({ length: count })` takes: NaN and negative
      counts give an empty array. */
  function MockLength(count: Option<int>): nat {
    if count.Some? && count.value > 0 then count.value else 0
  }

  /** `generateMockFlashcards(topic, count)`: `count` cards (NaN counts as 0),
      card `i` being template `i % 5`. */
  function MockFlashcards(topic: string, count: Option<int>): (cards: seq<QA>)
    ensures |cards| == MockLength(count)
    ensures forall i :: 0 <= i < |cards| ==> cards[i] == MockTemplates(topic)[i % 5]
  {
    MockCards(topic, MockLength(count))
  }

  function MockCards(topic: string, n: nat): (cards: seq<QA>)
    ensures |cards| == n
    ensures forall i :: 0 <= i < n ==> cards[i] == MockTemplates(topic)[i % 5]
  {
    if n == 0 then [] else MockCards(topic, n - 1) + [MockTemplates(topic)[(n - 1) % 5]]
  }

  /** Every mock question mentions the topic, and the set repeats every five
      cards. */
  lemma MockFlashcardsProperties(topic: string, count: Option<int>)
    ensures forall i :: 0 <= i < |MockFlashcards(topic, count)| ==> Contains(MockFlashcards(topic, count)[i].question, topic)
    ensures forall i :: 0 <= i < |MockFlashcards(topic, count)| - 5 ==>
      MockFlashcards(topic, count)[i] == MockFlashcards(topic, count)[i + 5]
  {
    var cards := MockFlashcards(topic, count);
    forall i | 0 <= i < |cards| - 5 ensures cards[i] == cards[i + 5] {
      assert (i + 5) % 5 == i % 5;
    }
  }

  // ---------------------------------------------------------------------------
  // Loading

  /** `localStorage.getItem(key) || fallback`: null and "" take the fallback. */
  function OrDefault(stored: Option<string>, fallback: string): (v: string)
    ensures stored.None? || stored == Some("") ==> v == fallback
    ensures stored.Some? && stored.value != "" ==> v == stored.value
  {
    if stored.None? || stored.value == "" then fallback else stored.value
  }

  /** The saved choices the page reads; `characterName` is the `name` of the
      parsed saved character when it is truthy. */
  datatype Storage = Storage(
    currentTopic: Option<string>,
    cardCount: Option<string>,
    studyMode: Option<string>,
    studyTechnique: Option<string>,
    characterName: Option<string>)

  /** What the page holds as its card list: the cards of the generator or of
      the mock set, or a value of the retrieval service kept as it came. */
  datatype Deck = Cards(cards: seq<QA>) | Raw(value: Json)

  /** How the retrieval call ended. */
  datatype RagOutcome = RagThrew | RagReturned(value: Json)

  /** `Array.isArray(cards) ? cards : cards.flashcards || []`; `None` is the
      TypeError of reading `flashcards` on null. */
  function NormalizeLoaded(v: Json): (d: Option<Deck>)
    ensures d.None? <==> v.JNull?
    ensures v.JArr? ==> d == Some(Raw(v))
  {
    if v.JArr? then Some(Raw(v))
    else if v.JNull? then None
    else
      var f := Get(v, "flashcards");
      if f.Some? && Truthy(f.value) then Some(Raw(f.value)) else Some(Cards([]))
  }

  /** `parseInt(localStorage.getItem("cardCount") || "10")`; `None` is NaN. */
  function SavedCount(cardCount: Option<string>): (count: Option<int>)
    ensures cardCount.None? || cardCount == Some("") ==> count == Some(10)
  {
    TenReadsBack();
    ParseIntJs(OrDefault(cardCount, "10"))
  }

  lemma TenReadsBack()
    ensures ParseIntJs("10") == Some(10)
  {
    assert NatToString(10) == NatToString(1) + [DigitChar(0)];
    assert NatToString(10) == "10";
    ParseIntJsOfNat(10);
  }

  /** The card list the loader settles on when a topic is saved. The
      generator never rejects, so it is kept as it is; a retrieval call that
      throws, or a null result, gives the mock set. */
  function LoadedDeck(st: Storage, resp: Response, parse: string -> Option<Json>, rag: RagOutcome): Deck
    requires st.currentTopic.Some?
  {
    var topic := st.currentTopic.value;
    var count := SavedCount(st.cardCount);
    if st.studyMode == Some("rag") then
      match rag
      case RagThrew => Cards(MockFlashcards(topic, count))
      case RagReturned(v) =>
        (match NormalizeLoaded(v)
         case Some(d) => d
         case None => Cards(MockFlashcards(topic, count)))
    else Cards(GenerateFlashcards(topic, resp, parse))
  }

  /** Outside the retrieval mode the page shows exactly the generator's cards;
      in it, a failure shows the mock set for the saved topic and count. */
  lemma LoadedDeckCases(st: Storage, resp: Response, parse: string -> Option<Json>, rag: RagOutcome)
    requires st.currentTopic.Some?
    ensures st.studyMode != Some("rag") ==>
      LoadedDeck(st, resp, parse, rag) == Cards(GenerateFlashcards(st.currentTopic.value, resp, parse))
    ensures st.studyMode == Some("rag") && (rag.RagThrew? || rag.value.JNull?) ==>
      LoadedDeck(st, resp, parse, rag) == Cards(MockFlashcards(st.currentTopic.value, SavedCount(st.cardCount)))
    ensures st.studyMode == Some("rag") && rag.RagReturned? && rag.value.JArr? ==>
      LoadedDeck(st, resp, parse, rag) == Raw(rag.value)
  {
  }

  // ---------------------------------------------------------------------------
  // Dispatch

  /** The session component rendered for a technique. */
  datatype SessionKind =
    | ClassicCards | MultipleChoice | Pomodoro | Feynman
    | SpacedRepetition | ActiveRecall | StudyBuddy | MindMapping

  /** The technique id each component is chosen for. */
  function KindId(k: SessionKind): string {
    match k
    case ClassicCards => "flashcards"
    case MultipleChoice => "multiple-choice"
    case Pomodoro => "pomodoro"
    case Feynman => "feynman"
    case SpacedRepetition => "spaced-repetition"
    case ActiveRecall => "active-recall"
    case StudyBuddy => "study-buddy"
    case MindMapping => "mind-mapping"
  }

  const KnownIds: set<string> := {"flashcards", "multiple-choice", "pomodoro", "feynman",
                                  "spaced-repetition", "active-recall", "study-buddy", "mind-mapping"}

  /** `renderStudyMode`: the component for a known id, the classic session
      for any other. */
  function Dispatch(technique: string): (k: SessionKind)
    ensures technique !in KnownIds ==> k == ClassicCards
    ensures technique in KnownIds ==> KindId(k) == technique
  {
    match technique
    case "multiple-choice" => MultipleChoice
    case "pomodoro" => Pomodoro
    case "feynman" => Feynman
    case "spaced-repetition" => SpacedRepetition
    case "active-recall" => ActiveRecall
    case "study-buddy" => StudyBuddy
    case "mind-mapping" => MindMapping
    case _ => ClassicCards
  }

  /** Every component is reached by its own id, and by no other known id. */
  lemma DispatchRoundTrip(k: SessionKind, t: string)
    ensures Dispatch(KindId(k)) == k
    ensures KindId(k) in KnownIds
    ensures t in KnownIds && Dispatch(t) == k ==> t == KindId(k)
  {
  }

  /** What the page shows. */
  datatype Screen = Loading | Session(kind: SessionKind) | Summary(stats: Option<Stats>)

  class StudyPage {
    var flashcards: Deck
    var isLoading: bool
    var studyTechnique: string
    var characterBg: Option<string>
    var currentLevel: int
    var showLevelUp: bool
    var sessionComplete: bool
    var sessionStats: Option<Stats>
    var navigations: seq<string>

    constructor ()
      ensures flashcards == Cards([]) && isLoading && studyTechnique == "flashcards"
      ensures characterBg.None? && currentLevel == 0 && !showLevelUp
      ensures !sessionComplete && sessionStats.None? && navigations == []
    {
      flashcards := Cards([]);
      isLoading := true;
      studyTechnique := "flashcards";
      characterBg := None;
      currentLevel := 0;
      showLevelUp := false;
      sessionComplete := false;
      sessionStats := None;
      navigations := [];
    }

    /** The screen for the current state. */
    function View(): (s: Screen)
      reads this
      ensures isLoading ==> s == Loading
      ensures !isLoading && !sessionComplete ==> s == Session(Dispatch(studyTechnique))
      ensures !isLoading && sessionComplete ==> s == Summary(sessionStats)
    {
      if isLoading then Loading
      else if !sessionComplete then Session(Dispatch(studyTechnique))
      else Summary(sessionStats)
    }

    /** The level effect: a truthy progress sets the level it carries. */
    method LoadUserLevel(progressLevel: Option<int>)
      modifies this`currentLevel
      ensures progressLevel.Some? ==> currentLevel == progressLevel.value
      ensures progressLevel.None? ==> currentLevel == old(currentLevel)
    {
      if progressLevel.Some? {
        currentLevel := progressLevel.value;
      }
    }

    /** The card effect. The technique and the character background are set
        first; without a saved topic the page goes back to the topic input
        and is left loading; otherwise the card list is settled and loading
        ends. `bgOf` stands for `getCharacterTechniqueBackground`. */
    method LoadFlashcards(st: Storage, resp: Response, parse: string -> Option<Json>,
                          rag: RagOutcome, bgOf: (string, string) -> string)
      modifies this`studyTechnique, this`characterBg, this`navigations, this`flashcards, this`isLoading
      ensures studyTechnique == OrDefault(st.studyTechnique, "flashcards")
      ensures characterBg == (if st.characterName.Some? then Some(bgOf(st.characterName.value, studyTechnique)) else old(characterBg))
      ensures OrDefault(st.currentTopic, "") == "" ==>
        navigations == old(navigations) + ["/topic-input"] && flashcards == old(flashcards) && isLoading == old(isLoading)
      ensures OrDefault(st.currentTopic, "") != "" ==>
        navigations == old(navigations) && flashcards == LoadedDeck(st, resp, parse, rag) && !isLoading
    {
      var technique := OrDefault(st.studyTechnique, "flashcards");
      studyTechnique := technique;
      if st.characterName.Some? {
        characterBg := Some(bgOf(st.characterName.value, technique));
      }
      if st.currentTopic.None? || st.currentTopic.value == "" {
        navigations := navigations + ["/topic-input"];
        return;
      }
      flashcards := LoadedDeck(st, resp, parse, rag);
      isLoading := false;
    }

    /** `onSessionComplete`: keeps the reported stats with `technique` set to
        the page's technique, and switches to the summary. */
    method HandleSessionComplete(stats: Stats)
      modifies this`sessionStats, this`sessionComplete
      ensures sessionComplete
      ensures sessionStats.Some? && sessionStats.value.Keys == stats.Keys + {"technique"}
      ensures sessionStats.value["technique"] == Str(studyTechnique)
      ensures forall k :: k in stats && k != "technique" ==> sessionStats.value[k] == stats[k]
    {
      sessionStats := Some(stats["technique" := Str(studyTechnique)]);
      sessionComplete := true;
    }

    /** The level-up dialog's continue button, rendered only while the
        dialog is shown. */
    method HandleContinue()
      requires showLevelUp
      modifies this`showLevelUp, this`navigations
      ensures !showLevelUp && navigations == old(navigations) + ["/topic-input"]
    {
      showLevelUp := false;
      navigations := navigations + ["/topic-input"];
    }
  }
}
