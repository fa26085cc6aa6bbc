/** Values shared by the study sessions and the study page. */
module StudyTypes {

  /** A flashcard as every session receives it: `{ question, answer }`. */
  datatype QA = QA(question: string, answer: string)

  /** One value of the plain object a session hands to `onSessionComplete`. */
  datatype Stat = Num(n: int) | Str(s: string)

  /** The object a session hands to `onSessionComplete`, key by key. */
  type Stats = map<string, Stat>

  /** `calculateXPWithBonus(base, technique).totalXP`. The function is imported
      by the sessions but not defined in the services module, so every session
      that uses it receives it as a parameter and assumes nothing about it. */
  type XpCalculator = (nat, string) -> nat

  /** The `{ xp, completed, total }` summary most sessions emit. */
  function XpSummary(xp: int, completed: int, total: int): (s: Stats)
    ensures s.Keys == {"xp", "completed", "total"}
    ensures s["xp"] == Num(xp) && s["completed"] == Num(completed) && s["total"] == Num(total)
  {
    map["xp" := Num(xp), "completed" := Num(completed), "total" := Num(total)]
  }
}
