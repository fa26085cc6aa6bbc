/** The services module of the front end: response-shape selection and
    normalisation in `generateFlashcards`, its topic fallback, the mock level
    lookup `checkLevelUp`, and the mock XP stubs `awardXP` and
    `completeStudySession`. The network call is replaced by its outcome, and
    `JSON.parse` by a parameter. */
module Api {
  import opened Wrappers
  import opened Text
  import opened StudyTypes

  // ---------------------------------------------------------------------------
  // JSON values and JavaScript truthiness

  datatype Json =
    | JNull
    | JBool(b: bool)
    | JNum(n: int)
    | JStr(s: string)
    | JArr(items: seq<Json>)
    | JObj(fields: map<string, Json>)

  /** JavaScript truthiness; numbers are integers here. */
  predicate Truthy(v: Json) {
    match v
    case JNull => false
    case JBool(b) => b
    case JNum(n) => n != 0
    case JStr(s) => s != []
    case _ => true
  }

  /** The property `v.k` of a value that is not null; `None` is `undefined`. */
  function Get(v: Json, k: string): (r: Option<Json>)
    ensures r.Some? <==> v.JObj? && k in v.fields
  {
    if v.JObj? && k in v.fields then Some(v.fields[k]) else None
  }

  predicate IsText(o: Option<Json>) {
    o.Some? && o.value.JStr? && o.value.s != []
  }

  /** `c[first] || c[second] || ""` for a card field; only a non-empty string
      counts as a truthy card field here. */
  function PickText(c: Json, first: string, second: string): string {
    if IsText(Get(c, first)) then Get(c, first).value.s
    else if IsText(Get(c, second)) then Get(c, second).value.s
    else ""
  }

  /** `({ question: c.front || c.question || "", answer: c.back || c.answer || "" })` */
  function NormalizeCard(c: Json): QA {
    QA(PickText(c, "front", "question"), PickText(c, "back", "answer"))
  }

  /** `cards.map(...)`: fails (a TypeError) as soon as one element is `null`,
      whose properties cannot be read. */
  function NormalizeCards(items: seq<Json>): (r: Option<seq<QA>>)
    ensures r.Some? <==> forall i :: 0 <= i < |items| ==> !items[i].JNull?
    ensures r.Some? ==> |r.value| == |items|
    ensures r.Some? ==> forall i :: 0 <= i < |items| ==> r.value[i] == NormalizeCard(items[i])
  {
    if items == [] then Some([])
    else if items[0].JNull? then None
    else
      match NormalizeCards(items[1..])
      case None => None
      case Some(rest) => Some([NormalizeCard(items[0])] + rest)
  }

  /** A card keeps the first non-empty text among `front`/`question` and among
      `back`/`answer`, and is empty where neither is present. */
  lemma NormalizeCardFields(c: Json)
    ensures IsText(Get(c, "front")) ==> NormalizeCard(c).question == Get(c, "front").value.s
    ensures !IsText(Get(c, "front")) && IsText(Get(c, "question")) ==>
              NormalizeCard(c).question == Get(c, "question").value.s
    ensures !IsText(Get(c, "front")) && !IsText(Get(c, "question")) ==> NormalizeCard(c).question == ""
    ensures IsText(Get(c, "back")) ==> NormalizeCard(c).answer == Get(c, "back").value.s
    ensures !IsText(Get(c, "back")) && IsText(Get(c, "answer")) ==>
              NormalizeCard(c).answer == Get(c, "answer").value.s
    ensures !IsText(Get(c, "back")) && !IsText(Get(c, "answer")) ==> NormalizeCard(c).answer == ""
  {
  }

  // ---------------------------------------------------------------------------
  // Repairing a truncated JSON string: `s.replace(/,\s*$/, "") + "}]"`

  /** A comma at `k` followed by nothing but white space up to the end. */
  predicate TrailingCommaAt(s: string, k: nat) {
    k < |s| && s[k] == ',' && AllSpaces(s[k + 1..])
  }

  function CleanTruncated(s: string): (r: string)
    ensures |r| >= 2 && r[|r| - 2..] == "}]"
    ensures forall k: nat :: TrailingCommaAt(s, k) ==> r == s[..k] + "}]"
    ensures (forall k: nat :: !TrailingCommaAt(s, k)) ==> r == s + "}]"
  {
    var u := TrimEnd(s);
    if |u| > 0 && u[|u| - 1] == ',' then
      assert TrailingCommaAt(s, |u| - 1) by {
        assert s[|u|..] == s[|u| - 1 + 1..];
      }
      TrailingCommaUnique(s);
      s[..|u| - 1] + "}]"
    else
      TrailingCommaUnique(s);
      s + "}]"
  }

  /** The only comma the pattern can match is the last character before the
      trailing white space. */
  lemma TrailingCommaUnique(s: string)
    ensures forall k: nat :: TrailingCommaAt(s, k) ==> k == |TrimEnd(s)| - 1 && TrimEnd(s)[k] == ','
  {
    var u := TrimEnd(s);
    forall k: nat | TrailingCommaAt(s, k)
      ensures k == |u| - 1 && u[k] == ','
    {
    }
  }

  // ---------------------------------------------------------------------------
  // generateFlashcards

  /** What `fetch` and `response.json()` delivered. */
  datatype Response =
    | FetchFailed        // fetch rejected
    | NotOk(status: int) // `!response.ok`
    | BadJson            // `response.json()` rejected
    | Body(data: Json)

  /** `data && data.status && data.status !== "success"` */
  predicate FailedStatus(data: Json) {
    Truthy(data) && Get(data, "status").Some? && Truthy(Get(data, "status").value)
    && Get(data, "status").value != JStr("success")
  }

  /** The three-way choice of where the cards are: the body itself when it is
      an array, else its `flashcards` array, else its `flashcards` string
      parsed (or parsed again after repair, or `[]`); `None` is the TypeError
      of reading `flashcards` on `null`. `parse` stands for `JSON.parse`,
      `None` for a parse error. */
  function SelectCards(data: Json, parse: string -> Option<Json>): Option<Json> {
    if data.JArr? then Some(data)
    else if data.JNull? then None
    else
      var f := Get(data, "flashcards");
      if f.Some? && f.value.JArr? then Some(f.value)
      else if f.Some? && Truthy(f.value) && f.value.JStr? then Some(ParseRepaired(f.value.s, parse))
      else Some(JArr([]))
  }

  /** `JSON.parse` of the string, else of its repaired form, else `[]`. */
  function ParseRepaired(text: string, parse: string -> Option<Json>): Json {
    match parse(text)
    case Some(v) => v
    case None =>
      match parse(CleanTruncated(text))
      case Some(v) => v
      case None => JArr([])
  }

  /** The body of the `try` block: `None` where it throws. */
  function ReadCards(data: Json, parse: string -> Option<Json>): Option<seq<QA>> {
    if FailedStatus(data) then None
    else
      match SelectCards(data, parse)
      case Some(JArr(items)) => NormalizeCards(items)
      case _ => None  // `cards.map` is not a function, or reading a property of null
  }

  /** The cards `generateFlashcards(topic)` resolves to; it never rejects. */
  function GenerateFlashcards(topic: string, resp: Response, parse: string -> Option<Json>): seq<QA> {
    match resp
    case Body(data) =>
      (match ReadCards(data, parse)
       case Some(cards) => cards
       case None => FallbackCards(topic))
    case _ => FallbackCards(topic)
  }

  /** The mock set returned from the `catch` block. */
  function FallbackCards(topic: string): (r: seq<QA>)
    ensures |r| == 3
    ensures forall i :: 0 <= i < 3 ==> Contains(r[i].question, topic)
  {
    ContainsMiddle("What is the main concept of ", topic, "?");
    ContainsMiddle("Why is ", topic, " important?");
    ContainsMiddle("How does ", topic, " work?");
    [ QA("What is the main concept of " + topic + "?", "This is a fundamental concept."),
      QA("Why is " + topic + " important?", "It forms the foundation."),
      QA("How does " + topic + " work?", "Through interconnected processes.") ]
  }

  /** Every failure of the request, of the status, or of reading the cards
      gives the three fallback cards. */
  lemma GenerateFallsBack(topic: string, resp: Response, parse: string -> Option<Json>)
    requires !resp.Body? || FailedStatus(resp.data) || resp.data.JNull?
    ensures GenerateFlashcards(topic, resp, parse) == FallbackCards(topic)
  {
  }

  /** An array body is normalised card by card, keeping the count. */
  lemma GenerateFromArray(topic: string, items: seq<Json>, parse: string -> Option<Json>)
    requires forall i :: 0 <= i < |items| ==> !items[i].JNull?
    ensures var r := GenerateFlashcards(topic, Body(JArr(items)), parse);
            |r| == |items| && forall i :: 0 <= i < |items| ==> r[i] == NormalizeCard(items[i])
  {
  }

  /** An object body with a `flashcards` array uses that array. */
  lemma GenerateFromField(topic: string, fields: map<string, Json>, items: seq<Json>, parse: string -> Option<Json>)
    requires "flashcards" in fields && fields["flashcards"] == JArr(items)
    requires !FailedStatus(JObj(fields))
    requires forall i :: 0 <= i < |items| ==> !items[i].JNull?
    ensures var r := GenerateFlashcards(topic, Body(JObj(fields)), parse);
            |r| == |items| && forall i :: 0 <= i < |items| ==> r[i] == NormalizeCard(items[i])
  {
  }

  /** A `flashcards` string is parsed as is, then once more after repair,
      and whatever array that yields is normalised; when both parses fail the
      array is empty, so the result is no cards, not the fallback. */
  lemma GenerateFromString(topic: string, fields: map<string, Json>, text: string,
                           items: seq<Json>, parse: string -> Option<Json>)
    requires "flashcards" in fields && fields["flashcards"] == JStr(text) && text != []
    requires !FailedStatus(JObj(fields))
    requires ParseRepaired(text, parse) == JArr(items)
    requires forall i :: 0 <= i < |items| ==> !items[i].JNull?
    ensures var r := GenerateFlashcards(topic, Body(JObj(fields)), parse);
            |r| == |items| && forall i :: 0 <= i < |items| ==> r[i] == NormalizeCard(items[i])
  {
    var data := JObj(fields);
    assert Get(data, "flashcards") == Some(JStr(text));
    assert SelectCards(data, parse) == Some(JArr(items));
    assert ReadCards(data, parse) == NormalizeCards(items);
  }

  /** The repair chain: the first parse that succeeds wins, and two failures
      give an empty array. */
  lemma ParseRepairedCases(text: string, parse: string -> Option<Json>)
    ensures parse(text).Some? ==> ParseRepaired(text, parse) == parse(text).value
    ensures parse(text).None? && parse(CleanTruncated(text)).Some? ==>
      ParseRepaired(text, parse) == parse(CleanTruncated(text)).value
    ensures parse(text).None? && parse(CleanTruncated(text)).None? ==>
      ParseRepaired(text, parse) == JArr([])
  {
  }

  /** An object body whose `flashcards` is missing, empty or neither an array
      nor a string yields no cards at all. */
  lemma GenerateWithoutCards(topic: string, fields: map<string, Json>, parse: string -> Option<Json>)
    requires !FailedStatus(JObj(fields))
    requires "flashcards" !in fields || fields["flashcards"] == JStr([])
             || !(fields["flashcards"].JArr? || fields["flashcards"].JStr?)
    ensures GenerateFlashcards(topic, Body(JObj(fields)), parse) == []
  {
  }

  // ---------------------------------------------------------------------------
  // checkLevelUp

  const LevelThresholds: seq<int> := [0, 100, 250, 450, 700, 1000]

  predicate Ascending(ts: seq<int>) {
    forall i, j :: 0 <= i < j < |ts| ==> ts[i] < ts[j]
  }

  /** `ts.findIndex((t) => xp < t)`: the first threshold above `xp`, or -1. */
  function FindFirstAbove(ts: seq<int>, xp: int): (k: int)
    ensures -1 <= k < |ts|
    ensures k == -1 <==> forall i :: 0 <= i < |ts| ==> ts[i] <= xp
    ensures k >= 0 ==> xp < ts[k] && forall i :: 0 <= i < k ==> ts[i] <= xp
  {
    if ts == [] then -1
    else if xp < ts[0] then 0
    else
      var k := FindFirstAbove(ts[1..], xp);
      if k == -1 then -1 else k + 1
  }

  /** How many thresholds `xp` has reached. */
  function CountReached(ts: seq<int>, xp: int): (n: nat)
    ensures n <= |ts|
  {
    if ts == [] then 0 else (if ts[0] <= xp then 1 else 0) + CountReached(ts[1..], xp)
  }

  /** The result object of the mock; `unlocked` is always `null`. */
  datatype LevelCheck = LevelCheck(leveledUp: bool, newLevel: int, unlocked: Option<string>)

  function CheckLevelUp(currentXP: int): (r: LevelCheck)
    ensures !r.leveledUp && r.unlocked.None?
    ensures -2 <= r.newLevel <= |LevelThresholds| - 2
  {
    LevelCheck(false, FindFirstAbove(LevelThresholds, currentXP) - 1, None)
  }

  /** On an ascending table, the first index above `xp` is the number of
      thresholds reached, unless every threshold is reached. */
  lemma {:induction false} FirstAboveCounts(ts: seq<int>, xp: int)
    requires Ascending(ts)
    ensures FindFirstAbove(ts, xp) >= 0 ==> FindFirstAbove(ts, xp) == CountReached(ts, xp)
    ensures FindFirstAbove(ts, xp) == -1 ==> CountReached(ts, xp) == |ts|
  {
    if ts != [] {
      FirstAboveCounts(ts[1..], xp);
      if xp < ts[0] {
        NoneReached(ts[1..], xp);
      }
    }
  }

  lemma {:induction false} NoneReached(ts: seq<int>, xp: int)
    requires forall i :: 0 <= i < |ts| ==> xp < ts[i]
    ensures CountReached(ts, xp) == 0
  {
    if ts != [] {
      NoneReached(ts[1..], xp);
    }
  }

  /** Below the last threshold the mock reports (thresholds reached) - 1:
      -1 below zero, 0 up to 99, ..., 4 up to 999. */
  lemma CheckLevelUpBelowTop(xp: int)
    requires xp < 1000
    ensures CheckLevelUp(xp).newLevel == CountReached(LevelThresholds, xp) - 1
  {
    ThresholdsAscending();
    FirstAboveCounts(LevelThresholds, xp);
    assert LevelThresholds[5] == 1000;
  }

  lemma ThresholdsAscending()
    ensures Ascending(LevelThresholds)
  {
    var ts := LevelThresholds;
    forall i, j | 0 <= i < j < |ts| ensures ts[i] < ts[j] {
    }
  }

  /** From 1000 XP on, `findIndex` finds nothing and the reported level is -2. */
  lemma CheckLevelUpAtTop(xp: int)
    requires xp >= 1000
    ensures CheckLevelUp(xp).newLevel == -2
  {
  }

  lemma CheckLevelUpExamples()
    ensures CheckLevelUp(0).newLevel == 0
    ensures CheckLevelUp(100).newLevel == 1
    ensures CheckLevelUp(999).newLevel == 4
    ensures CheckLevelUp(1000).newLevel == -2
  {
  }

  /** The level lookup the mock evidently intends: thresholds reached minus
      one, at every XP total. */
  function LevelOf(xp: int): (level: int)
    ensures -1 <= level <= |LevelThresholds| - 1
  {
    CountReached(LevelThresholds, xp) - 1
  }

  lemma {:induction false} CountReachedMonotone(ts: seq<int>, a: int, b: int)
    requires a <= b
    ensures CountReached(ts, a) <= CountReached(ts, b)
  {
    if ts != [] {
      CountReachedMonotone(ts[1..], a, b);
    }
  }

  /** The intended lookup never goes down as XP grows, agrees with the mock
      below 1000, and is 5 from 1000 on. */
  lemma LevelOfProperties(a: int, b: int)
    ensures a <= b ==> LevelOf(a) <= LevelOf(b)
    ensures a < 1000 ==> LevelOf(a) == CheckLevelUp(a).newLevel
    ensures a >= 1000 ==> LevelOf(a) == 5
    ensures 0 <= a ==> LevelOf(a) >= 0
  {
    if a <= b {
      CountReachedMonotone(LevelThresholds, a, b);
    }
    if a < 1000 {
      CheckLevelUpBelowTop(a);
    } else {
      ThresholdsAscending();
      FirstAboveCounts(LevelThresholds, a);
    }
  }

  // ---------------------------------------------------------------------------
  // The mock XP stubs

  /** An argument as a caller passed it; the sessions pass the reason text
      first and the amount second, against the `(amount, reason)` signature. */
  datatype Arg = ArgNum(n: int) | ArgText(s: string)

  /** One call `awardXP(amount, reason)`. */
  datatype AwardCall = AwardCall(amount: Arg, reason: Arg)

  datatype AwardResult = AwardResult(success: bool, newTotal: int)

  function ShowInt(n: int): string {
    if n >= 0 then NatToString(n) else "-" + NatToString(-n)
  }

  function ShowArg(a: Arg): string {
    match a
    case ArgNum(n) => ShowInt(n)
    case ArgText(s) => s
  }

  /** The line the mock writes to the console. */
  function AwardLog(call: AwardCall): (line: string)
    ensures Contains(line, ShowArg(call.amount)) && Contains(line, ShowArg(call.reason))
  {
    var x, y := ShowArg(call.amount), ShowArg(call.reason);
    var line := "Awarded " + x + " XP for " + y;
    ContainsMiddle("Awarded ", x, " XP for " + y);
    assert "Awarded " + x + (" XP for " + y) == line;
    ContainsMiddle("Awarded " + x + " XP for ", y, "");
    assert "Awarded " + x + " XP for " + y + "" == line;
    line
  }

  /** The mock `awardXP`: whatever it is given, it reports success and a fixed
      total of 150. */
  function AwardXP(call: AwardCall): (r: AwardResult)
    ensures r == AwardResult(true, 150)
  {
    AwardResult(true, 150)
  }

  /** The award the mock `completeStudySession` makes, whatever the session
      data: exactly 50 XP for "session_complete"; it reports success. */
  function CompleteStudySession(sessionData: Stats): (r: (AwardCall, bool))
    ensures r.0.amount == ArgNum(50) && r.0.reason == ArgText("session_complete")
    ensures r.1 && AwardXP(r.0).success
  {
    (AwardCall(ArgNum(50), ArgText("session_complete")), true)
  }

  /** A call with the arguments swapped, as the sessions make it, logs the
      reason where the amount belongs and the amount where the reason
      belongs. */
  lemma SwappedAwardLog(reason: string, amount: nat)
    ensures AwardLog(AwardCall(ArgText(reason), ArgNum(amount)))
         == "Awarded " + reason + " XP for " + NatToString(amount)
  {
  }
}
