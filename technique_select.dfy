/** The technique picker: five techniques, each unlocked from a required
    level, and a selection that only unlocked techniques can take. */
module TechniqueSelect {
  import opened Wrappers
  import opened Text

  datatype Technique = Technique(id: string, requiredLevel: int)

  /** The table of techniques, in display order. */
  const Techniques: seq<Technique> := [
    Technique("flashcards", 1),
    Technique("multiple-choice", 2),
    Technique("pomodoro", 3),
    Technique("spaced-repetition", 4),
    Technique("active-recall", 5)
  ]

  const InitialSelection: string := "flashcards"

  /** The level read from storage: the stored text, or "1" when nothing (or
      the empty string) is stored, through `parseInt`; `None` stands for NaN. */
  function InitialLevel(stored: Option<string>): (level: Option<int>)
    ensures stored.None? || stored == Some("") ==> level == Some(1)
  {
    ParseIntJsOfNat(1);
    ParseIntJs(if stored.None? || stored.value == "" then "1" else stored.value)
  }

  /** A level written as a decimal numeral is read back as itself. */
  lemma InitialLevelOfNumeral(n: nat)
    ensures InitialLevel(Some(NatToString(n))) == Some(n)
  {
    ParseIntJsOfNat(n);
  }

  /** `userLevel >= technique.requiredLevel`; NaN compares false. */
  predicate IsUnlocked(level: Option<int>, t: Technique) {
    level.Some? && level.value >= t.requiredLevel
  }

  /** The ids of the unlocked techniques, in table order. */
  function UnlockedIds(level: Option<int>, ts: seq<Technique>): (ids: seq<string>)
    ensures |ids| <= |ts|
    ensures forall i :: 0 <= i < |ts| && IsUnlocked(level, ts[i]) ==> ts[i].id in ids
    ensures forall id :: id in ids ==> exists i :: 0 <= i < |ts| && ts[i].id == id && IsUnlocked(level, ts[i])
  {
    if ts == [] then []
    else (if IsUnlocked(level, ts[0]) then [ts[0].id] else []) + UnlockedIds(level, ts[1..])
  }

  /** A higher level unlocks everything a lower one does. */
  lemma UnlockMonotone(a: int, b: int, t: Technique)
    requires a <= b
    ensures IsUnlocked(Some(a), t) ==> IsUnlocked(Some(b), t)
  {
  }

  /** The table's required levels are 1 to 5 in display order. */
  lemma RequiredLevels()
    ensures forall i :: 0 <= i < |Techniques| ==> Techniques[i].requiredLevel == i + 1
  {
  }

  /** In a table whose required levels count up by one from `base`, level
      `level` unlocks a prefix: as many techniques as the level reaches. */
  lemma {:induction false} UnlockedPrefix(level: int, ts: seq<Technique>, base: int)
    requires forall i :: 0 <= i < |ts| ==> ts[i].requiredLevel == base + i
    ensures UnlockedIds(Some(level), ts) == TechniqueIds(ts[..Max(0, Min(level - base + 1, |ts|))])
  {
    if ts != [] {
      UnlockedPrefix(level, ts[1..], base + 1);
      var n := Max(0, Min(level - base + 1, |ts|));
      if n > 0 {
        var p := ts[..n];
        assert p[1..] == ts[1..][..n - 1];
        assert TechniqueIds(p) == [ts[0].id] + TechniqueIds(p[1..]);
      } else {
        assert ts[..n] == [];
      }
    }
  }

  function TechniqueIds(ts: seq<Technique>): (ids: seq<string>)
    ensures |ids| == |ts| && forall i :: 0 <= i < |ts| ==> ids[i] == ts[i].id
  {
    if ts == [] then [] else [ts[0].id] + TechniqueIds(ts[1..])
  }

  /** Level `n` unlocks the first `n` techniques of the table (none below 1,
      all five from 5 on), and NaN unlocks none. */
  lemma UnlockedAtLevel(level: int)
    ensures UnlockedIds(Some(level), Techniques) == TechniqueIds(Techniques[..Max(0, Min(level, |Techniques|))])
    ensures level <= 1 ==> |UnlockedIds(Some(level), Techniques)| == Max(0, level)
    ensures UnlockedIds(None, Techniques) == []
  {
    RequiredLevels();
    UnlockedPrefix(level, Techniques, 1);
    assert UnlockedIds(None, Techniques) == UnlockedIds(None, Techniques[1..]);
    assert UnlockedIds(None, Techniques[1..]) == UnlockedIds(None, Techniques[2..]);
    assert UnlockedIds(None, Techniques[2..]) == UnlockedIds(None, Techniques[3..]);
    assert UnlockedIds(None, Techniques[3..]) == UnlockedIds(None, Techniques[4..]);
    assert UnlockedIds(None, Techniques[4..]) == UnlockedIds(None, Techniques[5..]);
  }

  /** At level 1 only the flashcards are unlocked. */
  lemma OnlyFlashcardsAtLevelOne()
    ensures UnlockedIds(Some(1), Techniques) == ["flashcards"]
  {
    UnlockedAtLevel(1);
    assert Techniques[..1] == [Techniques[0]];
  }

  /** A click on a card: it selects the technique only if it is unlocked. */
  function Click(selected: string, level: Option<int>, t: Technique): (next: string)
    ensures IsUnlocked(level, t) ==> next == t.id
    ensures !IsUnlocked(level, t) ==> next == selected
  {
    if IsUnlocked(level, t) then t.id else selected
  }

  /** The selection after a series of clicks on cards of the table. */
  function ClickAll(selected: string, level: Option<int>, clicks: seq<nat>): string
    requires forall k :: 0 <= k < |clicks| ==> clicks[k] < |Techniques|
    decreases |clicks|
  {
    if clicks == [] then selected
    else ClickAll(Click(selected, level, Techniques[clicks[0]]), level, clicks[1..])
  }

  /** From level 1 on, whatever is clicked, the selection (and so what
      "Start Session" stores) is a technique of the table that is unlocked. */
  lemma {:induction false} SelectionStaysUnlocked(selected: string, level: Option<int>, clicks: seq<nat>)
    requires forall k :: 0 <= k < |clicks| ==> clicks[k] < |Techniques|
    requires selected in UnlockedIds(level, Techniques)
    ensures ClickAll(selected, level, clicks) in UnlockedIds(level, Techniques)
    decreases |clicks|
  {
    if clicks != [] {
      var t := Techniques[clicks[0]];
      var next := Click(selected, level, t);
      assert next in UnlockedIds(level, Techniques);
      SelectionStaysUnlocked(next, level, clicks[1..]);
    }
  }

  /** The initial selection is unlocked exactly when the level is at least 1. */
  lemma InitialSelectionUnlocked(level: Option<int>)
    ensures InitialSelection in UnlockedIds(level, Techniques) <==> level.Some? && level.value >= 1
  {
    if InitialSelection in UnlockedIds(level, Techniques) {
      var i :| 0 <= i < |Techniques| && Techniques[i].id == InitialSelection && IsUnlocked(level, Techniques[i]);
      assert i == 0;
    }
  }

  /** What "Start Session" does: the stored key and value, and the route. */
  datatype Continuation = Continuation(key: string, value: string, route: string)

  function HandleContinue(selected: string): (c: Continuation)
    ensures c.key == "studyTechnique" && c.value == selected && c.route == "/study"
  {
    Continuation("studyTechnique", selected, "/study")
  }
}
