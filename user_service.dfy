/** The back end's user store: records kept in a process-wide cache and in a
    persistent collection, with XP and counter updates and a leaderboard
    sorted by XP. The collection is a map from user id to what its `data`
    metadata decodes to; timestamps are an opaque `now` passed in. */
module UserService {
  import opened Wrappers
  import opened Seqs

  // ---------------------------------------------------------------------------
  // Values and records

  /** The JSON-representable Python values a record holds. */
  datatype PyValue =
    | PNone
    | PBool(b: bool)
    | PInt(i: int)
    | PStr(s: string)
    | PList(items: seq<PyValue>)
    | PDict(entries: map<string, PyValue>)

  type UserRecord = map<string, PyValue>

  /** An entry of the collection: its `data` either decodes to a record or
      does not. */
  datatype Entry = Stored(data: UserRecord) | Undecodable

  /** The exceptions the updates let escape. */
  datatype PyError = KeyError(key: string) | TypeError

  /** The value of `x` in `x += n` when Python can add an int to it. */
  function AsInt(v: PyValue): Option<int> {
    match v
    case PInt(i) => Some(i)
    case PBool(b) => Some(if b then 1 else 0)
    case _ => None
  }

  /** The record `_create_new_user` builds. */
  function NewUser(userId: string, now: string): (r: UserRecord)
    ensures "updated_at" in r && "level" in r && "xp" in r && "character" in r
  {
    map[
      "user_id" := PStr(userId),
      "xp" := PInt(0),
      "level" := PInt(1),
      "flashcards_reviewed" := PInt(0),
      "quizzes_completed" := PInt(0),
      "documents_processed" := PInt(0),
      "streak" := PInt(0),
      "last_activity" := PNone,
      "achievements" := PList([]),
      "unlocked_features" := PList([PStr("basic_flashcards")]),
      "character" := PNone,
      "created_at" := PStr(now),
      "updated_at" := PStr(now)
    ]
  }

  /** The defaults every new user starts from. */
  predicate HasDefaults(r: UserRecord, userId: string) {
    && "user_id" in r && r["user_id"] == PStr(userId)
    && "xp" in r && r["xp"] == PInt(0)
    && "level" in r && r["level"] == PInt(1)
    && "flashcards_reviewed" in r && r["flashcards_reviewed"] == PInt(0)
    && "quizzes_completed" in r && r["quizzes_completed"] == PInt(0)
    && "documents_processed" in r && r["documents_processed"] == PInt(0)
    && "streak" in r && r["streak"] == PInt(0)
    && "achievements" in r && r["achievements"] == PList([])
    && "unlocked_features" in r && r["unlocked_features"] == PList([PStr("basic_flashcards")])
    && "character" in r && r["character"] == PNone
  }

  /** `user_data.update(updates)` followed by a fresh `updated_at`. */
  function Merged(r: UserRecord, updates: UserRecord, now: string): (m: UserRecord)
    ensures m.Keys == r.Keys + updates.Keys + {"updated_at"}
    ensures m["updated_at"] == PStr(now)
    ensures forall k :: k in updates && k != "updated_at" ==> m[k] == updates[k]
    ensures forall k :: k in r && k !in updates && k != "updated_at" ==> m[k] == r[k]
  {
    (r + updates)["updated_at" := PStr(now)]
  }

  /** What `_save_to_chromadb` leaves in the record it was given: a fresh
      `updated_at` when there is a collection, nothing otherwise. */
  function Stamped(r: UserRecord, available: bool, now: string): (s: UserRecord)
    ensures !available ==> s == r
    ensures available ==> s.Keys == r.Keys + {"updated_at"} && s["updated_at"] == PStr(now)
    ensures forall k :: k in r && k != "updated_at" ==> s[k] == r[k]
  {
    if available then r["updated_at" := PStr(now)] else r
  }

  /** Saving a record that already carries this `updated_at` leaves it as it is. */
  lemma StampedAgain(r: UserRecord, available: bool, now: string)
    requires "updated_at" in r && r["updated_at"] == PStr(now)
    ensures Stamped(r, available, now) == r
  {
    if available {
      assert r["updated_at" := PStr(now)] == r;
    }
  }

  /** `user_data[key] += n` followed by a fresh `updated_at`: a missing key
      raises `KeyError`, a value an int cannot be added to raises
      `TypeError`; otherwise only that key (and `updated_at`) changes. */
  function Incremented(before: UserRecord, key: string, n: int, now: string): (res: Result<UserRecord, PyError>)
    ensures key !in before ==> res == Err(KeyError(key))
    ensures key in before && AsInt(before[key]).None? ==> res == Err(TypeError)
    ensures key in before && AsInt(before[key]).Some? ==>
      && res.Ok?
      && res.value.Keys == before.Keys + {"updated_at"}
      && res.value["updated_at"] == PStr(now)
      && (key != "updated_at" ==> res.value[key] == PInt(AsInt(before[key]).value + n))
      && forall k :: k in before && k != key && k != "updated_at" ==> res.value[k] == before[k]
  {
    if key !in before then Err(KeyError(key))
    else
      match AsInt(before[key])
      case None => Err(TypeError)
      case Some(x) => Ok(before[key := PInt(x + n)]["updated_at" := PStr(now)])
  }

  /** `add_xp` never touches `level`. */
  lemma AddXpKeepsLevel(before: UserRecord, amount: int, now: string)
    requires "level" in before
    ensures Incremented(before, "xp", amount, now).Ok? ==>
      Incremented(before, "xp", amount, now).value["level"] == before["level"]
  {
  }

  /** Whether the upsert is reached: building its metadata reads `level` and
      `xp`, and a record without them raises before the write (the error is
      caught and printed). */
  predicate Persists(r: UserRecord, available: bool) {
    available && "level" in r && "xp" in r
  }

  /** A fresh record, once saved, is a record with the defaults. */
  lemma NewUserDefaults(userId: string, now: string, available: bool)
    ensures HasDefaults(Stamped(NewUser(userId, now), available, now), userId)
    ensures Persists(NewUser(userId, now), available) <==> available
  {
    var n := NewUser(userId, now);
    assert HasDefaults(n, userId);
    StampedKeepsDefaults(n, userId, available, now);
  }

  lemma StampedKeepsDefaults(r: UserRecord, userId: string, available: bool, now: string)
    requires HasDefaults(r, userId)
    ensures HasDefaults(Stamped(r, available, now), userId)
  {
  }

  // ---------------------------------------------------------------------------
  // The leaderboard, as a specification

  /** A row of the leaderboard before it is ranked. */
  datatype Row = Row(userId: PyValue, xp: PyValue, level: PyValue,
                     flashcardsReviewed: PyValue, quizzesCompleted: PyValue, character: PyValue)

  datatype Ranked = Ranked(row: Row, rank: nat)

  /** The row built from an entry, or `None` where building it raises (the
      entry is then skipped): a missing field, or a `character` that is
      present but not a dict, such as the `None` of a new user. */
  function DecodeEntry(e: Entry): (row: Option<Row>)
    ensures e.Undecodable? ==> row.None?
    ensures e.Stored? && "character" in e.data && !e.data["character"].PDict? ==> row.None?
    ensures row.Some? ==> e.Stored? && "xp" in e.data && row.value.xp == e.data["xp"]
  {
    match e
    case Undecodable => None
    case Stored(d) =>
      if "user_id" !in d || "xp" !in d || "level" !in d
         || "flashcards_reviewed" !in d || "quizzes_completed" !in d then None
      else if "character" in d && !d["character"].PDict? then None
      else
        var character :=
          if "character" !in d then PStr("Unknown")
          else if "name" in d["character"].entries then d["character"].entries["name"]
          else PStr("Unknown");
        Some(Row(d["user_id"], d["xp"], d["level"], d["flashcards_reviewed"], d["quizzes_completed"], character))
  }

  /** A user who has not chosen a character does not appear. */
  lemma NewUserSkipped(userId: string, now: string, available: bool)
    ensures DecodeEntry(Stored(Stamped(NewUser(userId, now), available, now))).None?
  {
  }

  /** The rows of the entries, in the collection's order, skipping those that
      fail. */
  function DecodeAll(store: map<string, Entry>, ids: seq<string>): (rows: seq<Row>)
    requires forall k :: 0 <= k < |ids| ==> ids[k] in store
    ensures |rows| <= |ids|
  {
    if ids == [] then []
    else
      var rest := DecodeAll(store, ids[..|ids| - 1]);
      match DecodeEntry(store[ids[|ids| - 1]])
      case Some(row) => rest + [row]
      case None => rest
  }

  /** The sort key; only rows whose `xp` is an int (or bool) are compared. */
  function Key(r: Row): int {
    match AsInt(r.xp)
    case Some(i) => i
    case None => 0
  }

  /** Whether `sort(key=xp)` can compare the keys: with two rows or more,
      every one of them takes part in a comparison. */
  predicate Comparable(rows: seq<Row>) {
    |rows| < 2 || forall k :: 0 <= k < |rows| ==> AsInt(rows[k].xp).Some?
  }

  predicate SortedDesc(s: seq<Row>) {
    forall i, j :: 0 <= i < j < |s| ==> Key(s[i]) >= Key(s[j])
  }

  /** How many leading rows of `s` have a key at least that of `x`. */
  function InsertPos(x: Row, s: seq<Row>): (k: nat)
    ensures k <= |s|
    ensures forall t :: 0 <= t < k ==> Key(s[t]) >= Key(x)
    ensures k < |s| ==> Key(s[k]) < Key(x)
  {
    if s == [] || Key(s[0]) < Key(x) then 0 else 1 + InsertPos(x, s[1..])
  }

  /** `x` placed after every row whose key is not smaller. */
  function Insert(x: Row, s: seq<Row>): seq<Row> {
    var k := InsertPos(x, s);
    s[..k] + [x] + s[k..]
  }

  /** `sort(key=lambda x: x['xp'], reverse=True)`, which is stable: rows
      inserted one by one from the left. */
  function SortDesc(s: seq<Row>): (r: seq<Row>)
    ensures |r| == |s|
  {
    if s == [] then [] else Insert(s[|s| - 1], SortDesc(s[..|s| - 1]))
  }

  /** The rows of `s` with key `v`, in order. */
  function WithKey(s: seq<Row>, v: int): seq<Row> {
    if s == [] then []
    else WithKey(s[..|s| - 1], v) + (if Key(s[|s| - 1]) == v then [s[|s| - 1]] else [])
  }

  lemma {:induction false} WithKeyAppend(a: seq<Row>, b: seq<Row>, v: int)
    ensures WithKey(a + b, v) == WithKey(a, v) + WithKey(b, v)
    decreases |b|
  {
    if b != [] {
      assert (a + b)[..|a + b| - 1] == a + b[..|b| - 1];
      WithKeyAppend(a, b[..|b| - 1], v);
    } else {
      assert a + b == a;
    }
  }

  lemma {:induction false} WithKeyNone(s: seq<Row>, v: int)
    requires forall t :: 0 <= t < |s| ==> Key(s[t]) != v
    ensures WithKey(s, v) == []
    decreases |s|
  {
    if s != [] {
      WithKeyNone(s[..|s| - 1], v);
    }
  }

  /** The row at position `i` of an insertion. */
  lemma InsertAt(x: Row, s: seq<Row>, i: int)
    requires 0 <= i <= |s|
    ensures var k := InsertPos(x, s);
      Insert(x, s)[i] == (if i < k then s[i] else if i == k then x else s[i - 1])
  {
  }

  lemma InsertSorted(x: Row, s: seq<Row>)
    requires SortedDesc(s)
    ensures SortedDesc(Insert(x, s))
  {
    var k := InsertPos(x, s);
    var r := Insert(x, s);
    forall i, j | 0 <= i < j < |r| ensures Key(r[i]) >= Key(r[j]) {
      InsertAt(x, s, i);
      InsertAt(x, s, j);
    }
  }

  lemma InsertPermutes(x: Row, s: seq<Row>)
    ensures multiset(Insert(x, s)) == multiset(s) + multiset{x}
  {
    var k := InsertPos(x, s);
    assert s == s[..k] + s[k..];
  }

  /** Inserting keeps the rows of each key in order, `x` after those already
      there. */
  lemma InsertStable(x: Row, s: seq<Row>, v: int)
    requires SortedDesc(s)
    ensures WithKey(Insert(x, s), v) == WithKey(s, v) + (if Key(x) == v then [x] else [])
  {
    var k := InsertPos(x, s);
    InsertSplit(x, s, v);
    if Key(x) == v {
      TailHasOtherKeys(x, s, v);
    }
    MiddleToEnd(WithKey(s[..k], v), if Key(x) == v then [x] else [], WithKey(s[k..], v));
  }

  /** The rows with key `v`, before and after the insertion point. */
  lemma InsertSplit(x: Row, s: seq<Row>, v: int)
    ensures var k := InsertPos(x, s);
      && WithKey(Insert(x, s), v) == WithKey(s[..k], v) + (if Key(x) == v then [x] else []) + WithKey(s[k..], v)
      && WithKey(s, v) == WithKey(s[..k], v) + WithKey(s[k..], v)
  {
    var k := InsertPos(x, s);
    var pre, post := s[..k], s[k..];
    assert Insert(x, s) == (pre + [x]) + post;
    WithKeyAppend(pre + [x], post, v);
    assert (pre + [x])[..|pre + [x]| - 1] == pre;
    SplitAt(s, k);
    WithKeyAppend(pre, post, v);
  }

  /** In sorted rows, no row from the insertion point of `x` on shares its key. */
  lemma TailHasOtherKeys(x: Row, s: seq<Row>, v: int)
    requires SortedDesc(s) && Key(x) == v
    ensures WithKey(s[InsertPos(x, s)..], v) == []
  {
    var k := InsertPos(x, s);
    var post := s[k..];
    TailBelow(x, s);
    forall t | 0 <= t < |post| ensures Key(post[t]) != v {
      assert post[t] == s[k + t];
    }
    WithKeyNone(post, v);
  }

  /** In sorted rows, every row from the insertion point on has a smaller key. */
  lemma TailBelow(x: Row, s: seq<Row>)
    requires SortedDesc(s)
    ensures forall t :: InsertPos(x, s) <= t < |s| ==> Key(s[t]) < Key(x)
  {
    var k := InsertPos(x, s);
    if k < |s| {
      forall t | k <= t < |s| ensures Key(s[t]) < Key(x) {
        assert Key(s[k]) >= Key(s[t]) || t == k;
      }
    }
  }

  /** The sorted rows are in non-increasing order of XP and are the same rows. */
  lemma {:induction false} SortDescSorted(s: seq<Row>)
    ensures SortedDesc(SortDesc(s))
    decreases |s|
  {
    if s != [] {
      var init := s[..|s| - 1];
      SortDescSorted(init);
      InsertSorted(s[|s| - 1], SortDesc(init));
    }
  }

  lemma {:induction false} SortDescPermutes(s: seq<Row>)
    ensures multiset(SortDesc(s)) == multiset(s)
    decreases |s|
  {
    if s != [] {
      var init := s[..|s| - 1];
      var last := s[|s| - 1];
      SortDescPermutes(init);
      InsertPermutes(last, SortDesc(init));
      MultisetOfInit(s);
    }
  }

  /** Sorting one more row inserts it into the sorted rows before it. */
  lemma SortDescStep(s: seq<Row>, i: nat)
    requires i < |s|
    ensures SortDesc(s[..i + 1]) == Insert(s[i], SortDesc(s[..i]))
  {
    var p := s[..i + 1];
    assert p[..|p| - 1] == s[..i];
  }

  /** The sort is stable: the rows sharing an XP value keep their order. */
  lemma {:induction false} SortDescStable(s: seq<Row>, v: int)
    ensures WithKey(SortDesc(s), v) == WithKey(s, v)
    decreases |s|
  {
    if s != [] {
      var init := s[..|s| - 1];
      SortDescStable(init, v);
      SortDescSorted(init);
      InsertStable(s[|s| - 1], SortDesc(init), v);
    }
  }

  /** The rows of a prefix of `s` with some key come first among those of `s`. */
  lemma WithKeyPrefix(s: seq<Row>, m: nat, v: int)
    requires m <= |s|
    ensures var p := WithKey(s[..m], v); |p| <= |WithKey(s, v)| && p == WithKey(s, v)[..|p|]
  {
    assert s == s[..m] + s[m..];
    WithKeyAppend(s[..m], s[m..], v);
  }

  /** The end of the slice `rows[:limit]`, negative limits counting from the
      end. */
  function SliceEnd(n: nat, limit: int): (m: nat)
    ensures m <= n
    ensures limit >= 0 ==> m == Min(limit, n)
    ensures limit < 0 ==> m == Max(0, n + limit)
  {
    if limit >= 0 then Min(limit, n) else Max(0, n + limit)
  }

  /** `rank` is the position counted from 1. */
  function RankFrom(s: seq<Row>): (r: seq<Ranked>)
    ensures |r| == |s|
    ensures forall i :: 0 <= i < |s| ==> r[i] == Ranked(s[i], i + 1)
  {
    if s == [] then [] else RankFrom(s[..|s| - 1]) + [Ranked(s[|s| - 1], |s|)]
  }

  /** The rows the leaderboard shows, before ranking; no collection, or keys
      the sort cannot compare, give none. */
  function TopRows(available: bool, store: map<string, Entry>, ids: seq<string>, limit: int): seq<Row>
    requires forall k :: 0 <= k < |ids| ==> ids[k] in store
  {
    if !available then []
    else
      var rows := DecodeAll(store, ids);
      if !Comparable(rows) then []
      else SortDesc(rows)[..SliceEnd(|rows|, limit)]
  }

  /** `get_leaderboard(limit)`, when the collection lists its entries in the
      order `ids`. */
  function Leaderboard(available: bool, store: map<string, Entry>, ids: seq<string>, limit: int): seq<Ranked>
    requires forall k :: 0 <= k < |ids| ==> ids[k] in store
  {
    RankFrom(TopRows(available, store, ids, limit))
  }

  /** At most `limit` rows (for a limit that is not negative) and never more
      than decode, ranked 1, 2, ... in order. */
  lemma LeaderboardRanks(available: bool, store: map<string, Entry>, ids: seq<string>, limit: int)
    requires forall k :: 0 <= k < |ids| ==> ids[k] in store
    ensures var top := TopRows(available, store, ids, limit);
      var board := Leaderboard(available, store, ids, limit);
      && |board| == |top| <= |DecodeAll(store, ids)|
      && (limit >= 0 ==> |board| <= limit)
      && (forall i :: 0 <= i < |board| ==> board[i].rank == i + 1 && board[i].row == top[i])
  {
  }

  /** Highest XP first, each one a decoded row of the collection; with room
      for every row, all of them. */
  lemma TopRowsSorted(available: bool, store: map<string, Entry>, ids: seq<string>, limit: int)
    requires forall k :: 0 <= k < |ids| ==> ids[k] in store
    ensures var top := TopRows(available, store, ids, limit);
      var rows := DecodeAll(store, ids);
      && SortedDesc(top)
      && multiset(top) <= multiset(rows)
      && (available && Comparable(rows) && limit >= |rows| ==> multiset(top) == multiset(rows))
  {
    var rows := DecodeAll(store, ids);
    if available && Comparable(rows) {
      SortDescSorted(rows);
      SortDescPermutes(rows);
      var m := SliceEnd(|rows|, limit);
      assert TopRows(available, store, ids, limit) == SortDesc(rows)[..m];
      SortedPrefix(SortDesc(rows), m);
      if limit >= |rows| {
        WholePrefix(SortDesc(rows));
      }
    }
  }

  lemma SortedPrefix(s: seq<Row>, m: nat)
    requires SortedDesc(s) && m <= |s|
    ensures SortedDesc(s[..m]) && multiset(s[..m]) <= multiset(s)
  {
    SplitAt(s, m);
  }

  /** Rows with equal XP keep the collection's order. */
  lemma TopRowsStable(available: bool, store: map<string, Entry>, ids: seq<string>, limit: int, v: int)
    requires forall k :: 0 <= k < |ids| ==> ids[k] in store
    ensures var p := WithKey(TopRows(available, store, ids, limit), v);
      var q := WithKey(DecodeAll(store, ids), v);
      |p| <= |q| && p == q[..|p|]
  {
    var rows := DecodeAll(store, ids);
    if available && Comparable(rows) {
      SortDescStable(rows, v);
      WithKeyPrefix(SortDesc(rows), SliceEnd(|rows|, limit), v);
    }
  }

  /** The board holds the best rows: `min(limit, n)` of the `n` decoded rows
      for a limit that is not negative, and no row left off has more XP than
      a row shown. With no collection, or keys the sort cannot compare, it is
      empty. */
  lemma TopRowsAreTop(available: bool, store: map<string, Entry>, ids: seq<string>, limit: int)
    requires forall k :: 0 <= k < |ids| ==> ids[k] in store
    ensures var top := TopRows(available, store, ids, limit);
      var rows := DecodeAll(store, ids);
      && (!available || !Comparable(rows) ==> top == [])
      && (available && Comparable(rows) ==>
            && (limit >= 0 ==> |top| == Min(limit, |rows|))
            && (forall t, r :: t in top && r in multiset(rows) - multiset(top) ==> Key(t) >= Key(r)))
  {
    var rows := DecodeAll(store, ids);
    if available && Comparable(rows) {
      var m := SliceEnd(|rows|, limit);
      assert TopRows(available, store, ids, limit) == SortDesc(rows)[..m];
      SortDescSorted(rows);
      SortDescPermutes(rows);
      SortedPrefixIsTop(SortDesc(rows), m);
    }
  }

  /** In rows sorted by XP, no row after a prefix has more XP than a row of
      the prefix. */
  lemma SortedPrefixIsTop(s: seq<Row>, m: nat)
    requires SortedDesc(s) && m <= |s|
    ensures forall t, r :: t in s[..m] && r in multiset(s) - multiset(s[..m]) ==> Key(t) >= Key(r)
  {
    RestAfterPrefix(s, m);
    PrefixOverRest(s, m);
    forall t, r | t in s[..m] && r in multiset(s) - multiset(s[..m])
      ensures Key(t) >= Key(r)
    {
      assert r in multiset(s[m..]);
    }
  }

  /** Taking a prefix's rows away leaves the rows after it. */
  lemma RestAfterPrefix(s: seq<Row>, m: nat)
    requires m <= |s|
    ensures multiset(s) - multiset(s[..m]) == multiset(s[m..])
  {
    SplitAt(s, m);
    assert multiset(s) == multiset(s[..m]) + multiset(s[m..]);
  }

  lemma PrefixOverRest(s: seq<Row>, m: nat)
    requires SortedDesc(s) && m <= |s|
    ensures forall t, r :: t in s[..m] && r in s[m..] ==> Key(t) >= Key(r)
  {
    forall t, r | t in s[..m] && r in s[m..]
      ensures Key(t) >= Key(r)
    {
      var i :| 0 <= i < m && s[..m][i] == t;
      var j :| 0 <= j < |s| - m && s[m..][j] == r;
      assert s[i] == t && s[m + j] == r;
    }
  }

  /** The collection's listing `ids`: every entry exactly once. */
  predicate ListsStore(store: map<string, Entry>, ids: seq<string>) {
    && (forall k :: 0 <= k < |ids| ==> ids[k] in store)
    && (forall i, j :: 0 <= i < j < |ids| ==> ids[i] != ids[j])
    && (forall id :: id in store ==> id in ids)
  }

  /** Every entry of the listing that builds a row is among the decoded rows. */
  lemma {:induction false} DecodeAllHasEvery(store: map<string, Entry>, ids: seq<string>, id: string)
    requires forall k :: 0 <= k < |ids| ==> ids[k] in store
    requires id in ids && DecodeEntry(store[id]).Some?
    ensures DecodeEntry(store[id]).value in DecodeAll(store, ids)
    decreases |ids|
  {
    var init := ids[..|ids| - 1];
    if ids[|ids| - 1] != id {
      var k :| 0 <= k < |ids| && ids[k] == id;
      assert init[k] == id;
      DecodeAllHasEvery(store, init, id);
    }
  }

  /** With a listing of the whole collection and room for every row, each user
      whose entry builds a row is on the board. */
  lemma LeaderboardHasEveryUser(available: bool, store: map<string, Entry>, ids: seq<string>, limit: int, id: string)
    requires ListsStore(store, ids)
    requires available && Comparable(DecodeAll(store, ids)) && limit >= |DecodeAll(store, ids)|
    requires id in store && DecodeEntry(store[id]).Some?
    ensures DecodeEntry(store[id]).value in TopRows(available, store, ids, limit)
  {
    var rows := DecodeAll(store, ids);
    DecodeAllHasEvery(store, ids, id);
    TopRowsSorted(available, store, ids, limit);
    assert DecodeEntry(store[id]).value in multiset(rows);
  }

  // ---------------------------------------------------------------------------
  // The service

  lemma UpdateTwice<K, V>(m: map<K, V>, k: K, a: V, b: V)
    ensures m[k := a][k := b] == m[k := b]
  {
  }

  lemma RemoveUpdated<K, V>(m: map<K, V>, k: K, v: V)
    ensures m[k := v] - {k} == m - {k}
  {
  }

  class UserStore {
    /** Whether the collection could be opened. */
    const available: bool
    /** The process-wide `user_cache`. */
    var cache: map<string, UserRecord>
    /** The persistent collection. */
    var store: map<string, Entry>

    constructor (available: bool, store: map<string, Entry>)
      ensures this.available == available && this.store == store && cache == map[]
    {
      this.available := available;
      this.store := store;
      cache := map[];
    }

    /** Whether `get_user` finds the user without creating one. */
    predicate Known(userId: string)
      reads this
    {
      userId in cache || (available && userId in store && store[userId].Stored?)
    }

    /** The record `get_user` returns: the cached one, else the stored one,
        else a new one. */
    function Lookup(userId: string, now: string): (r: UserRecord)
      reads this
    {
      if userId in cache then cache[userId]
      else if available && userId in store && store[userId].Stored? then store[userId].data
      else Stamped(NewUser(userId, now), available, now)
    }

    /** A user found neither in the cache nor in the collection gets a
        record with the defaults. */
    lemma LookupUnknown(userId: string, now: string)
      requires !Known(userId)
      ensures HasDefaults(Lookup(userId, now), userId)
    {
      NewUserDefaults(userId, now, available);
    }

    /** The collection once `get_user` has run: a user it had to create is
        saved there when the collection exists, and nothing else changes. */
    function StoreAfterGet(userId: string, now: string): (s: map<string, Entry>)
      reads this
      ensures Known(userId) || !available ==> s == store
      ensures !Known(userId) && available ==> s == store[userId := Stored(Lookup(userId, now))]
    {
      if Known(userId) || !available then store else store[userId := Stored(Lookup(userId, now))]
    }

    /** `_save_to_chromadb`: the record gains a fresh `updated_at` and is
        upserted; the upsert is skipped without a collection, and raises
        (caught) for a record without `level` or `xp`. */
    method Save(userId: string, data: UserRecord, now: string) returns (saved: UserRecord)
      modifies this`store
      ensures saved == Stamped(data, available, now)
      ensures Persists(data, available) ==> store == old(store)[userId := Stored(saved)]
      ensures !Persists(data, available) ==> store == old(store)
    {
      if !available {
        return data;
      }
      saved := data["updated_at" := PStr(now)];
      if "level" in data && "xp" in data {
        store := store[userId := Stored(saved)];
      }
    }

    /** `_create_new_user`: caches the default record and saves it. */
    method CreateNewUser(userId: string, now: string) returns (r: UserRecord)
      modifies this`cache, this`store
      ensures r == Stamped(NewUser(userId, now), available, now) && HasDefaults(r, userId)
      ensures cache == old(cache)[userId := r]
      ensures store == if available then old(store)[userId := Stored(r)] else old(store)
    {
      var data := NewUser(userId, now);
      ghost var cache0 := cache;
      cache := cache[userId := data];
      r := Save(userId, data, now);
      // the cache holds the same dict that the save stamped
      cache := cache[userId := r];
      UpdateTwice(cache0, userId, data, r);
      NewUserDefaults(userId, now, available);
    }

    /** `get_user`: the cache first, then the collection (caching what it
        finds), then a new user. */
    method GetUser(userId: string, now: string) returns (r: UserRecord)
      modifies this`cache, this`store
      ensures r == old(Lookup(userId, now))
      ensures cache == old(cache)[userId := r]
      ensures old(Known(userId)) ==> store == old(store)
      ensures !old(Known(userId)) ==> store == if available then old(store)[userId := Stored(r)] else old(store)
      ensures store - {userId} == old(store) - {userId}
      ensures store == old(StoreAfterGet(userId, now))
    {
      RemoveUpdated(store, userId, Stored(Stamped(NewUser(userId, now), available, now)));
      if userId in cache {
        return cache[userId];
      }
      if available && userId in store && store[userId].Stored? {
        r := store[userId].data;
        cache := cache[userId := r];
        return;
      }
      r := CreateNewUser(userId, now);
    }

    /** `update_user`: the keys of `updates` overwritten, the others kept, a
        fresh `updated_at`; cached and saved. */
    method UpdateUser(userId: string, updates: UserRecord, now: string) returns (r: UserRecord)
      modifies this`cache, this`store
      ensures r == Merged(old(Lookup(userId, now)), updates, now)
      ensures cache == old(cache)[userId := r]
      ensures store - {userId} == old(store) - {userId}
      ensures Persists(r, available) ==> userId in store && store[userId] == Stored(r)
      ensures store == if Persists(r, available) then old(StoreAfterGet(userId, now))[userId := Stored(r)]
                       else old(StoreAfterGet(userId, now))
      ensures !Persists(r, available) ==> store == old(store)
      ensures !available ==> store == old(store)
    {
      ghost var cache0 := cache;
      ghost var known := Known(userId);
      var data := GetUser(userId, now);
      ghost var before := data;
      data := Merged(data, updates, now);
      if !known && available {
        // a user `get_user` just created has `level` and `xp`
        assert "level" in before && "xp" in before;
      }
      r := CacheAndSave(userId, data, now);
      UpdateTwice(cache0, userId, before, r);
    }

    /** `set_character`: `update_user` with the single key `character`. */
    method SetCharacter(userId: string, character: PyValue, now: string) returns (r: UserRecord)
      modifies this`cache, this`store
      ensures r == Merged(old(Lookup(userId, now)), map["character" := character], now)
      ensures r["character"] == character
      ensures cache == old(cache)[userId := r]
      ensures store - {userId} == old(store) - {userId}
      ensures Persists(r, available) ==> userId in store && store[userId] == Stored(r)
      ensures store == if Persists(r, available) then old(StoreAfterGet(userId, now))[userId := Stored(r)]
                       else old(StoreAfterGet(userId, now))
      ensures !Persists(r, available) ==> store == old(store)
      ensures !available ==> store == old(store)
    {
      r := UpdateUser(userId, map["character" := character], now);
    }

    /** `add_xp`: the record `get_user` returns with `xp` raised by
        `amount`, cached and saved; the error escapes after `get_user` has
        run. */
    method AddXp(userId: string, amount: int, now: string) returns (res: Result<UserRecord, PyError>)
      modifies this`cache, this`store
      ensures res == Incremented(old(Lookup(userId, now)), "xp", amount, now)
      ensures cache == old(cache)[userId := if res.Ok? then res.value else old(Lookup(userId, now))]
      ensures store - {userId} == old(store) - {userId}
      ensures res.Ok? && Persists(res.value, available) ==> userId in store && store[userId] == Stored(res.value)
      ensures store == if res.Ok? && Persists(res.value, available)
                       then old(StoreAfterGet(userId, now))[userId := Stored(res.value)]
                       else old(StoreAfterGet(userId, now))
    {
      ghost var cache0 := cache;
      var data := GetUser(userId, now);
      res := IncrementAndSave(userId, data, "xp", amount, now);
      UpdateTwice(cache0, userId, data, if res.Ok? then res.value else data);
    }

    /** `update_stats`: a key the record has is raised by `increment`, cached
        and saved; an absent key leaves the record as `get_user` returned
        it, unsaved. */
    method UpdateStats(userId: string, statName: string, increment: int, now: string)
      returns (res: Result<UserRecord, PyError>)
      modifies this`cache, this`store
      ensures var before := old(Lookup(userId, now));
        res == if statName !in before then Ok(before) else Incremented(before, statName, increment, now)
      ensures cache == old(cache)[userId := if res.Ok? then res.value else old(Lookup(userId, now))]
      ensures store - {userId} == old(store) - {userId}
      ensures statName !in old(Lookup(userId, now)) && old(Known(userId)) ==> store == old(store)
      ensures res.Ok? && Persists(res.value, available) && statName in old(Lookup(userId, now)) ==>
        userId in store && store[userId] == Stored(res.value)
      ensures store == if res.Ok? && Persists(res.value, available) && statName in old(Lookup(userId, now))
                       then old(StoreAfterGet(userId, now))[userId := Stored(res.value)]
                       else old(StoreAfterGet(userId, now))
    {
      ghost var cache0 := cache;
      var data := GetUser(userId, now);
      if statName !in data {
        return Ok(data);
      }
      res := IncrementAndSave(userId, data, statName, increment, now);
      UpdateTwice(cache0, userId, data, if res.Ok? then res.value else data);
    }

    /** `user_data[key] += n` on the record just cached, then the fresh
        `updated_at`, the cache and the save. */
    method IncrementAndSave(userId: string, data: UserRecord, key: string, n: int, now: string)
      returns (res: Result<UserRecord, PyError>)
      requires userId in cache && cache[userId] == data
      modifies this`cache, this`store
      ensures res == Incremented(data, key, n, now)
      ensures cache == old(cache)[userId := if res.Ok? then res.value else data]
      ensures store - {userId} == old(store) - {userId}
      ensures res.Err? ==> store == old(store)
      ensures res.Ok? && Persists(res.value, available) ==> userId in store && store[userId] == Stored(res.value)
      ensures store == if res.Ok? && Persists(res.value, available) then old(store)[userId := Stored(res.value)]
                       else old(store)
    {
      if key !in data {
        assert cache == cache[userId := data];
        return Err(KeyError(key));
      }
      match AsInt(data[key])
      case None =>
        assert cache == cache[userId := data];
        return Err(TypeError);
      case Some(x) =>
        var updated := data[key := PInt(x + n)]["updated_at" := PStr(now)];
        var saved := CacheAndSave(userId, updated, now);
        return Ok(saved);
    }

    /** `user_cache[user_id] = user_data` and `_save_to_chromadb` for a record
        that already carries this `updated_at`, which the save leaves as it
        is. */
    method CacheAndSave(userId: string, data: UserRecord, now: string) returns (saved: UserRecord)
      requires "updated_at" in data && data["updated_at"] == PStr(now)
      modifies this`cache, this`store
      ensures saved == data
      ensures cache == old(cache)[userId := data]
      ensures store - {userId} == old(store) - {userId}
      ensures Persists(data, available) ==> store == old(store)[userId := Stored(data)]
      ensures !Persists(data, available) ==> store == old(store)
    {
      ghost var cache0, store0 := cache, store;
      cache := cache[userId := data];
      StampedAgain(data, available, now);
      saved := Save(userId, data, now);
      cache := cache[userId := saved];
      UpdateTwice(cache0, userId, data, saved);
      RemoveUpdated(store0, userId, Stored(saved));
    }

    /** `get_leaderboard(limit)`: decodes every entry in the collection's
        order `ids`, sorts by XP (highest first, stably), keeps `[:limit]`
        and ranks from 1. */
    method GetLeaderboard(ids: seq<string>, limit: int) returns (board: seq<Ranked>)
      requires ListsStore(store, ids)
      ensures board == Leaderboard(available, store, ids, limit)
    {
      if !available {
        return [];
      }
      var rows := DecodeEntries(store, ids);
      if !Comparable(rows) {
        return [];
      }
      var a := new Row[|rows|](i requires 0 <= i < |rows| => rows[i]);
      assert a[..] == rows;
      SortByXp(a);
      board := RankTop(a, SliceEnd(a.Length, limit));
    }
  }

  /** The loop over the collection's metadata: each entry that builds a row
      adds it, the others are passed over. */
  method DecodeEntries(store: map<string, Entry>, ids: seq<string>) returns (rows: seq<Row>)
    requires forall k :: 0 <= k < |ids| ==> ids[k] in store
    ensures rows == DecodeAll(store, ids)
  {
    rows := [];
    var k := 0;
    while k < |ids|
      invariant 0 <= k <= |ids|
      invariant rows == DecodeAll(store, ids[..k])
    {
      assert ids[..k + 1][..k] == ids[..k];
      match DecodeEntry(store[ids[k]]) {
        case Some(row) => rows := rows + [row];
        case None =>
      }
      k := k + 1;
    }
    assert ids[..|ids|] == ids;
  }

  /** The rank loop over `users_list[:limit]`. */
  method RankTop(a: array<Row>, m: nat) returns (board: seq<Ranked>)
    requires m <= a.Length
    ensures board == RankFrom(a[..m])
  {
    board := [];
    var i := 0;
    while i < m
      invariant 0 <= i <= m
      invariant board == RankFrom(a[..i])
    {
      assert a[..i + 1][..i] == a[..i];
      board := board + [Ranked(a[i], i + 1)];
      i := i + 1;
    }
  }

  /** `list.sort(key=xp, reverse=True)` in place: an insertion sort that
      moves each row left past the rows with a smaller key. */
  method SortByXp(a: array<Row>)
    modifies a
    ensures a[..] == SortDesc(old(a[..]))
  {
    ghost var orig := a[..];
    var i := 0;
    while i < a.Length
      invariant 0 <= i <= a.Length
      invariant a[..i] == SortDesc(orig[..i])
      invariant forall t :: i <= t < a.Length ==> a[t] == orig[t]
    {
      ghost var sorted := SortDesc(orig[..i]);
      var j := InsertLeft(a, i, sorted);
      SortStep(a[..i + 1], orig, i, j);
      i := i + 1;
    }
    assert a[..] == a[..a.Length] && orig == orig[..a.Length];
  }

  /** After one step, the first `i + 1` rows are the sort of the first
      `i + 1` original rows. */
  lemma SortStep(b: seq<Row>, orig: seq<Row>, i: nat, j: nat)
    requires i < |orig| && |b| == i + 1 && j <= i
    requires var sorted := SortDesc(orig[..i]);
      && b[j] == orig[i]
      && (forall t :: 0 <= t < j ==> b[t] == sorted[t])
      && (forall t :: j < t <= i ==> b[t] == sorted[t - 1])
      && (j == 0 || Key(sorted[j - 1]) >= Key(orig[i]))
      && (forall t :: j <= t < i ==> Key(sorted[t]) < Key(orig[i]))
    ensures b == SortDesc(orig[..i + 1])
  {
    var sorted := SortDesc(orig[..i]);
    SortDescSorted(orig[..i]);
    InsertPosIs(orig[i], sorted, j);
    InsertAssembled(b, orig[i], sorted, j);
    SortDescStep(orig, i);
  }

  /** One step of the sort: the row at `i` moves left past the rows before
      it whose key is smaller, which move one place right; `j` is where it
      lands. */
  method InsertLeft(a: array<Row>, i: nat, ghost sorted: seq<Row>) returns (j: nat)
    requires i < a.Length && |sorted| == i
    requires forall t :: 0 <= t < i ==> a[t] == sorted[t]
    modifies a
    ensures j <= i && a[j] == old(a[i])
    ensures forall t :: 0 <= t < j ==> a[t] == sorted[t]
    ensures forall t :: j < t <= i ==> a[t] == sorted[t - 1]
    ensures forall t :: i < t < a.Length ==> a[t] == old(a[t])
    ensures j == 0 || Key(sorted[j - 1]) >= Key(old(a[i]))
    ensures forall t :: j <= t < i ==> Key(sorted[t]) < Key(old(a[i]))
  {
    var x := a[i];
    j := i;
    while j > 0 && Key(a[j - 1]) < Key(x)
      invariant 0 <= j <= i
      invariant forall t :: 0 <= t < j ==> a[t] == sorted[t]
      invariant forall t :: j < t <= i ==> a[t] == sorted[t - 1]
      invariant forall t :: i < t < a.Length ==> a[t] == old(a[t])
      invariant forall t :: j <= t < i ==> Key(sorted[t]) < Key(x)
    {
      a[j] := a[j - 1];
      j := j - 1;
    }
    a[j] := x;
  }

  /** A sequence that reads as `sorted` with `x` at its insertion point is
      that insertion. */
  lemma InsertAssembled(b: seq<Row>, x: Row, sorted: seq<Row>, j: nat)
    requires |b| == |sorted| + 1 && j <= |sorted| && InsertPos(x, sorted) == j
    requires forall t :: 0 <= t < j ==> b[t] == sorted[t]
    requires b[j] == x
    requires forall t :: j < t < |b| ==> b[t] == sorted[t - 1]
    ensures b == Insert(x, sorted)
  {
    var r := Insert(x, sorted);
    forall t | 0 <= t < |b| ensures b[t] == r[t] {
      InsertAt(x, sorted, t);
    }
  }

  /** In sorted rows, the insertion point is where the last not-smaller key
      ends. */
  lemma {:induction false} InsertPosIs(x: Row, s: seq<Row>, j: nat)
    requires SortedDesc(s) && j <= |s|
    requires j == 0 || Key(s[j - 1]) >= Key(x)
    requires forall t :: j <= t < |s| ==> Key(s[t]) < Key(x)
    ensures InsertPos(x, s) == j
    decreases |s|
  {
    if s != [] && j > 0 {
      assert Key(s[0]) >= Key(s[j - 1]);
      InsertPosIs(x, s[1..], j - 1);
    }
  }
}
