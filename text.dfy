/** The JavaScript string operations the components rely on: `trim`,
    `split(/\s+/)`, `Number.toString`, `padStart(2, "0")` and `parseInt`. */
module Text {
  import opened Wrappers
  import opened Seqs

  /** JavaScript's WhiteSpace and LineTerminator characters: what `\s` matches
      in a regular expression and what `String.prototype.trim` removes. */
  predicate IsSpace(c: char) {
    || c == '\t' || c == '\n' || c == '\U{000B}' || c == '\U{000C}' || c == '\r'
    || c == ' ' || c == '\U{00A0}' || c == '\U{1680}'
    || ('\U{2000}' <= c <= '\U{200A}')
    || c == '\U{2028}' || c == '\U{2029}' || c == '\U{202F}' || c == '\U{205F}'
    || c == '\U{3000}' || c == '\U{FEFF}'
  }

  predicate AllSpaces(s: string) {
    forall i :: 0 <= i < |s| ==> IsSpace(s[i])
  }

  /** Drops the leading white space. */
  function TrimStart(s: string): (r: string)
    ensures |r| <= |s| && r == s[|s| - |r|..]
    ensures AllSpaces(s[..|s| - |r|])
    ensures r == [] || !IsSpace(r[0])
  {
    if s != [] && IsSpace(s[0]) then
      var r := TrimStart(s[1..]);
      assert s[1..][..|s[1..]| - |r|] == s[1..|s| - |r|];
      r
    else s
  }

  /** Drops the trailing white space. */
  function TrimEnd(s: string): (r: string)
    ensures |r| <= |s| && r == s[..|r|]
    ensures AllSpaces(s[|r|..])
    ensures r == [] || !IsSpace(r[|r| - 1])
  {
    if s != [] && IsSpace(s[|s| - 1]) then
      var p := s[..|s| - 1];
      var r := TrimEnd(p);
      SpacesThenSpace(p[|r|..], s[|s| - 1]);
      assert p[|r|..] + [s[|s| - 1]] == s[|r|..];
      assert p[..|r|] == s[..|r|];
      r
    else s
  }

  lemma SpacesThenSpace(w: string, c: char)
    requires AllSpaces(w) && IsSpace(c)
    ensures AllSpaces(w + [c])
  {
  }

  /** `s.trim()`: the slice of `s` between a white-space prefix and a
      white-space suffix that neither begins nor ends with white space. */
  function Trim(s: string): (r: string)
    ensures |r| <= |s|
    ensures r == [] <==> AllSpaces(s)
  {
    var t := TrimStart(s);
    var r := TrimEnd(t);
    TrimEmpty(s, t, r);
    r
  }

  /** What `trim` keeps neither begins nor ends with white space. */
  lemma TrimmedEnds(s: string)
    ensures var r := Trim(s);
            r == [] || (!IsSpace(r[0]) && !IsSpace(r[|r| - 1]))
  {
    TrimEnds(TrimStart(s), Trim(s));
  }

  lemma TrimEnds(t: string, r: string)
    requires t == [] || !IsSpace(t[0])
    requires r == TrimEnd(t)
    ensures r == [] || (!IsSpace(r[0]) && !IsSpace(r[|r| - 1]))
  {
    if r != [] {
      assert r[0] == t[0];
    }
  }

  lemma TrimEmpty(s: string, t: string, r: string)
    requires t == TrimStart(s) && r == TrimEnd(t)
    ensures r == [] <==> AllSpaces(s)
  {
    if r == [] {
      EmptyTrimAllSpaces(s, t);
    } else {
      KeptCharNotSpace(s, t, r);
    }
  }

  /** When nothing survives, `s` was a white-space prefix and a white-space
      rest. */
  lemma EmptyTrimAllSpaces(s: string, t: string)
    requires t == TrimStart(s) && TrimEnd(t) == []
    ensures AllSpaces(s)
  {
    assert t[|TrimEnd(t)|..] == t;
    SpacesConcat(s[..|s| - |t|], t);
    assert s == s[..|s| - |t|] + t;
  }

  /** A surviving last character is a character of `s` that is not white
      space. */
  lemma KeptCharNotSpace(s: string, t: string, r: string)
    requires t == TrimStart(s) && r == TrimEnd(t) && r != []
    ensures !AllSpaces(s)
  {
    var k := |s| - |t| + |r| - 1;
    assert r[|r| - 1] == t[|r| - 1] == s[k];
    assert !IsSpace(s[k]);
  }

  lemma SpacesConcat(a: string, b: string)
    requires AllSpaces(a) && AllSpaces(b)
    ensures AllSpaces(a + b)
  {
  }

  // ---------------------------------------------------------------------------
  // Words: `s.trim().split(/\s+/).filter((w) => w.length > 0).length`

  /** `s.split(/\s+/)`: the pieces between maximal runs of white space, with an
      empty piece before a leading run and after a trailing one. */
  function SplitWs(s: string): (pieces: seq<string>)
    ensures |pieces| >= 1
    ensures pieces[0] == [] <==> (s == [] || IsSpace(s[0]))
    decreases |s|
  {
    if s == [] then [[]]
    else if IsSpace(s[0]) then [[]] + SplitWs(TrimStart(s))
    else
      var rest := SplitWs(s[1..]);
      [[s[0]] + rest[0]] + rest[1..]
  }

  /** `.filter((w) => w.length > 0)` */
  function NonEmpty(pieces: seq<string>): (r: seq<string>)
    ensures |r| <= |pieces|
    ensures forall i :: 0 <= i < |r| ==> r[i] != [] && r[i] in pieces
  {
    if pieces == [] then []
    else (if pieces[0] != [] then [pieces[0]] else []) + NonEmpty(pieces[1..])
  }

  /** The word count the active-recall and Feynman sessions display. */
  function WordCount(s: string): nat {
    |NonEmpty(SplitWs(Trim(s)))|
  }

  /** Reference definition of a word count: a left-to-right scan that counts
      every non-space character that follows white space or the start. */
  function WordStarts(s: string, afterSpace: bool): nat {
    if s == [] then 0
    else (if afterSpace && !IsSpace(s[0]) then 1 else 0) + WordStarts(s[1..], IsSpace(s[0]))
  }

  function Words(s: string): nat {
    WordStarts(s, true)
  }

  lemma {:induction false} WordStartsSkipSpaces(s: string)
    ensures WordStarts(s, true) == WordStarts(TrimStart(s), true)
    decreases |s|
  {
    if s != [] && IsSpace(s[0]) {
      WordStartsSkipSpaces(s[1..]);
    }
  }

  lemma {:induction false} WordStartsTrailingSpaces(s: string, w: string, afterSpace: bool)
    requires AllSpaces(w)
    ensures WordStarts(s + w, afterSpace) == WordStarts(s, afterSpace)
    decreases |s|
  {
    if s == [] {
      assert s + w == w;
      AllSpacesNoWords(w, afterSpace);
    } else {
      assert (s + w)[1..] == s[1..] + w;
      WordStartsTrailingSpaces(s[1..], w, IsSpace(s[0]));
    }
  }

  lemma {:induction false} AllSpacesNoWords(w: string, afterSpace: bool)
    requires AllSpaces(w)
    ensures WordStarts(w, afterSpace) == 0
    decreases |w|
  {
    if w != [] {
      AllSpacesNoWords(w[1..], true);
    }
  }

  lemma NonEmptyCons(x: string, rest: seq<string>)
    ensures NonEmpty([x] + rest) == (if x != [] then [x] else []) + NonEmpty(rest)
  {
    assert ([x] + rest)[1..] == rest;
  }

  /** The pieces of `split(/\s+/)` that survive the filter are exactly the words
      the reference scan counts; the first piece is a word only when `s` starts
      with a non-space character. */
  lemma {:induction false} SplitCountsWords(s: string)
    ensures |NonEmpty(SplitWs(s))| == WordStarts(s, true)
    ensures |NonEmpty(SplitWs(s)[1..])| == WordStarts(s, false)
    decreases |s|
  {
    var p := SplitWs(s);
    if s == [] {
    } else if IsSpace(s[0]) {
      var t := TrimStart(s);
      SplitCountsWords(t);
      WordStartsSkipSpaces(s[1..]);
      if s[1..] != [] && IsSpace(s[1..][0]) {
        assert TrimStart(s[1..]) == t;
      } else {
        assert s[1..] == t;
      }
      assert p == [[]] + SplitWs(t);
      NonEmptyCons([], SplitWs(t));
      assert p[1..] == SplitWs(t);
    } else {
      var rest := SplitWs(s[1..]);
      SplitCountsWords(s[1..]);
      assert p == [[s[0]] + rest[0]] + rest[1..];
      NonEmptyCons([s[0]] + rest[0], rest[1..]);
      assert p[1..] == rest[1..];
    }
  }

  /** The source's word count agrees with the reference scan on the whole,
      untrimmed input. */
  lemma WordCountIsWords(s: string)
    ensures WordCount(s) == Words(s)
  {
    var t := TrimStart(s);
    var r := TrimEnd(t);
    assert Trim(s) == r;
    SplitCountsWords(r);
    SplitAt(t, |r|);
    WordStartsTrailingSpaces(r, t[|r|..], true);
    WordStartsSkipSpaces(s);
  }

  // ---------------------------------------------------------------------------
  // `String.prototype.length`: UTF-16 code units

  /** The code units a character takes in UTF-16: two for a character outside
      the Basic Multilingual Plane (a surrogate pair), one otherwise. */
  function Utf16Units(c: char): (n: nat)
    ensures n == 1 || n == 2
    ensures n == 2 <==> c as int >= 0x10000
  {
    if c as int >= 0x10000 then 2 else 1
  }

  /** `s.length`, which counts UTF-16 code units rather than characters. */
  function Utf16Length(s: string): (n: nat)
    ensures |s| <= n <= 2 * |s|
    ensures n == 0 <==> s == []
  {
    if s == [] then 0 else Utf16Length(s[..|s| - 1]) + Utf16Units(s[|s| - 1])
  }

  /** Lengths add up over a concatenation. */
  lemma {:induction false} Utf16LengthAppend(a: string, b: string)
    ensures Utf16Length(a + b) == Utf16Length(a) + Utf16Length(b)
    decreases |b|
  {
    if b == [] {
      assert a + b == a;
    } else {
      var c := a + b;
      assert c[..|c| - 1] == a + b[..|b| - 1] && c[|c| - 1] == b[|b| - 1];
      Utf16LengthAppend(a, b[..|b| - 1]);
    }
  }

  /** Within the Basic Multilingual Plane the length is the number of
      characters. */
  lemma {:induction false} Utf16LengthBmp(s: string)
    requires forall i :: 0 <= i < |s| ==> s[i] as int < 0x10000
    ensures Utf16Length(s) == |s|
  {
    if s != [] {
      Utf16LengthBmp(s[..|s| - 1]);
    }
  }

  /** A character outside the Basic Multilingual Plane counts twice: "a😀"
      has length 3 although it holds two characters. */
  lemma Utf16LengthOfAstral()
    ensures |"a\U{1F600}"| == 2 && Utf16Length("a\U{1F600}") == 3
  {
    assert "a\U{1F600}"[1..] == "\U{1F600}";
    assert "\U{1F600}"[1..] == [];
  }

  // ---------------------------------------------------------------------------
  // Decimal digits: `n.toString()` and `parseInt`

  predicate IsDigit(c: char) {
    '0' <= c <= '9'
  }

  predicate AllDigits(s: string) {
    forall i :: 0 <= i < |s| ==> IsDigit(s[i])
  }

  function DigitValue(c: char): (d: nat)
    requires IsDigit(c)
    ensures d < 10
  {
    c as int - '0' as int
  }

  function DigitChar(d: nat): (c: char)
    requires d < 10
    ensures IsDigit(c) && DigitValue(c) == d
  {
    ('0' as int + d) as char
  }

  /** `n.toString()` for a natural number: its decimal digits, most significant
      first, without leading zeros. */
  function NatToString(n: nat): (s: string)
    ensures |s| >= 1 && AllDigits(s)
    ensures |s| > 1 ==> s[0] != '0'
    ensures n < 10 <==> |s| == 1
  {
    if n < 10 then [DigitChar(n)] else NatToString(n / 10) + [DigitChar(n % 10)]
  }

  /** The value of a string of decimal digits. */
  function ParseNat(s: string): nat
    requires AllDigits(s)
  {
    if s == [] then 0 else ParseNat(s[..|s| - 1]) * 10 + DigitValue(s[|s| - 1])
  }

  lemma {:induction false} ParseNatToString(n: nat)
    ensures ParseNat(NatToString(n)) == n
  {
    if n >= 10 {
      var s := NatToString(n);
      assert s[..|s| - 1] == NatToString(n / 10);
      ParseNatToString(n / 10);
    }
  }

  lemma NatToStringInjective(a: nat, b: nat)
    ensures NatToString(a) == NatToString(b) <==> a == b
  {
    ParseNatToString(a);
    ParseNatToString(b);
  }

  lemma {:induction false} NatToStringShort(n: nat)
    ensures n < 100 ==> |NatToString(n)| <= 2
  {
    if 10 <= n < 100 {
      assert NatToString(n / 10) == [DigitChar(n / 10)];
    }
  }

  lemma {:induction false} ParseNatZeros(z: string)
    requires forall i :: 0 <= i < |z| ==> z[i] == '0'
    ensures AllDigits(z) && ParseNat(z) == 0
  {
    if z != [] {
      ParseNatZeros(z[..|z| - 1]);
    }
  }

  lemma {:induction false} ParseNatLeadingZeros(z: string, s: string)
    requires forall i :: 0 <= i < |z| ==> z[i] == '0'
    requires AllDigits(s)
    ensures AllDigits(z + s) && ParseNat(z + s) == ParseNat(s)
    decreases |s|
  {
    if s == [] {
      assert z + s == z;
      ParseNatZeros(z);
    } else {
      assert (z + s)[..|z + s| - 1] == z + s[..|s| - 1];
      ParseNatLeadingZeros(z, s[..|s| - 1]);
    }
  }

  /** `s.padStart(2, "0")` */
  function PadStart2(s: string): (r: string)
    ensures |r| == Max(2, |s|)
    ensures r[|r| - |s|..] == s
    ensures forall i :: 0 <= i < |r| - |s| ==> r[i] == '0'
  {
    if |s| >= 2 then s else seq(2 - |s|, _ => '0') + s
  }

  lemma ParsePadded(s: string)
    requires AllDigits(s)
    ensures AllDigits(PadStart2(s)) && ParseNat(PadStart2(s)) == ParseNat(s)
  {
    var r := PadStart2(s);
    if |s| < 2 {
      assert r == r[..|r| - |s|] + s;
      ParseNatLeadingZeros(r[..|r| - |s|], s);
    }
  }

  /** The longest prefix of `s` made of decimal digits. */
  function DigitPrefix(s: string): (d: string)
    ensures |d| <= |s| && d == s[..|d|] && AllDigits(d)
    ensures |d| == |s| || !IsDigit(s[|d|])
  {
    if s != [] && IsDigit(s[0]) then
      var d := DigitPrefix(s[1..]);
      assert [s[0]] + d == s[..|d| + 1];
      [s[0]] + d
    else []
  }

  /** `parseInt(s)` in base ten: leading white space, an optional sign and the
      longest run of digits after it; `None` stands for NaN. */
  function ParseIntJs(s: string): (r: Option<int>)
    ensures r.None? <==> DigitPrefix(SignAfter(TrimStart(s))) == []
  {
    var t := TrimStart(s);
    var d := DigitPrefix(SignAfter(t));
    if d == [] then None
    else if |t| > 0 && t[0] == '-' then Some(0 - ParseNat(d))
    else Some(ParseNat(d))
  }

  function SignAfter(t: string): string {
    if |t| > 0 && (t[0] == '-' || t[0] == '+') then t[1..] else t
  }

  lemma ParseIntJsOfNat(n: nat)
    ensures ParseIntJs(NatToString(n)) == Some(n)
  {
    var s := NatToString(n);
    assert !IsSpace(s[0]) && s[0] != '-' && s[0] != '+';
    assert TrimStart(s) == s;
    assert SignAfter(s) == s;
    DigitPrefixOfDigits(s);
    ParseNatToString(n);
  }

  /** Digits after white space and a sign read as the signed decimal value;
      `parseInt` stops at the first character that is not a digit. */
  lemma ParseIntJsSigned(w: string, sign: char, d: string, rest: string)
    requires AllSpaces(w) && (sign == '-' || sign == '+')
    requires d != [] && AllDigits(d) && (rest == [] || !IsDigit(rest[0]))
    ensures ParseIntJs(w + [sign] + d + rest) == Some(if sign == '-' then 0 - ParseNat(d) else ParseNat(d))
  {
    SignNotSpace(sign);
    DigitPrefixStops(d, rest);
    ParseIntJsSignedDigits(w, sign, d, rest);
  }

  lemma ParseIntJsSignedDigits(w: string, sign: char, d: string, rest: string)
    requires AllSpaces(w) && (sign == '-' || sign == '+') && !IsSpace(sign)
    requires DigitPrefix(d + rest) == d && d != []
    ensures ParseIntJs(w + [sign] + d + rest) == Some(if sign == '-' then 0 - ParseNat(d) else ParseNat(d))
  {
    var t := [sign] + (d + rest);
    assert w + [sign] + d + rest == w + t;
    TrimStartSkips(w, t);
    assert t[1..] == d + rest;
    ParseIntJsAfterSign(w + t, t, d);
  }

  lemma SignNotSpace(c: char)
    requires c == '-' || c == '+'
    ensures !IsSpace(c)
  {
  }

  /** `parseInt` once the white space is dropped: the sign and the digits
      after it. */
  lemma ParseIntJsAfterSign(s: string, t: string, d: string)
    requires TrimStart(s) == t && |t| > 0 && (t[0] == '-' || t[0] == '+')
    requires DigitPrefix(t[1..]) == d && d != []
    ensures ParseIntJs(s) == Some(if t[0] == '-' then 0 - ParseNat(d) else ParseNat(d))
  {
  }

  /** White space before a character that is not white space is all that
      `TrimStart` drops. */
  lemma {:induction false} TrimStartSkips(w: string, t: string)
    requires AllSpaces(w) && (t == [] || !IsSpace(t[0]))
    ensures TrimStart(w + t) == t
    decreases |w|
  {
    if w == [] {
      assert w + t == t;
    } else {
      assert (w + t)[0] == w[0] && (w + t)[1..] == w[1..] + t;
      TrimStartSkips(w[1..], t);
    }
  }

  /** The digit run ends where the digits do. */
  lemma {:induction false} DigitPrefixStops(d: string, rest: string)
    requires AllDigits(d) && (rest == [] || !IsDigit(rest[0]))
    ensures DigitPrefix(d + rest) == d
    decreases |d|
  {
    if d == [] {
      assert d + rest == rest;
    } else {
      assert (d + rest)[0] == d[0] && (d + rest)[1..] == d[1..] + rest;
      DigitPrefixStops(d[1..], rest);
    }
  }

  lemma {:induction false} DigitPrefixOfDigits(s: string)
    requires AllDigits(s)
    ensures DigitPrefix(s) == s
  {
    if s != [] {
      DigitPrefixOfDigits(s[1..]);
    }
  }

  // ---------------------------------------------------------------------------
  // Clock displays "M:SS" and "MM:SS"

  function IndexOfChar(s: string, c: char): (k: int)
    ensures -1 <= k < |s|
    ensures k >= 0 ==> s[k] == c && c !in s[..k]
    ensures k == -1 ==> c !in s
  {
    if s == [] then -1
    else if s[0] == c then 0
    else
      var k := IndexOfChar(s[1..], c);
      if k == -1 then -1 else k + 1
  }

  /** Reads back a clock display "minutes:seconds": digits, a colon, and
      exactly two digits of seconds below sixty; the result is in seconds. */
  function ParseClock(s: string): Option<nat> {
    var k := IndexOfChar(s, ':');
    if k < 0 then None else ClockFields(s[..k], s[k + 1..])
  }

  /** The two fields around the colon: digits of minutes, and exactly two
      digits of seconds below sixty. */
  function ClockFields(m: string, sec: string): Option<nat> {
    if m != [] && AllDigits(m) && |sec| == 2 && AllDigits(sec) && ParseNat(sec) < 60
    then Some(ParseNat(m) * 60 + ParseNat(sec))
    else None
  }

  lemma ParseClockOf(m: string, sec: string)
    requires m != [] && AllDigits(m) && |sec| == 2 && AllDigits(sec) && ParseNat(sec) < 60
    ensures ParseClock(m + ":" + sec) == Some(ParseNat(m) * 60 + ParseNat(sec))
  {
    NoColonInDigits(m);
    ClockSplit(m, sec);
    ClockFieldsOf(m, sec);
  }

  lemma ClockFieldsOf(m: string, sec: string)
    requires m != [] && AllDigits(m) && |sec| == 2 && AllDigits(sec) && ParseNat(sec) < 60
    ensures ClockFields(m, sec) == Some(ParseNat(m) * 60 + ParseNat(sec))
  {
  }

  lemma NoColonInDigits(m: string)
    requires AllDigits(m)
    ensures ':' !in m
  {
    forall i | 0 <= i < |m| ensures m[i] != ':' {
      assert IsDigit(m[i]);
    }
  }

  /** The first colon of `m + ":" + sec` is the one after `m`. */
  lemma ClockSplit(m: string, sec: string)
    requires ':' !in m
    ensures ParseClock(m + ":" + sec) == ClockFields(m, sec)
  {
    var s := m + ":" + sec;
    assert s == m + (":" + sec);
    IndexOfCharAfter(m, ":" + sec, ':');
    assert s[..|m|] == m && s[|m| + 1..] == sec;
  }

  /** `ParseClockOf` with the values of the two digit runs given. */
  lemma ParseClockOfValues(s: string, m: string, sec: string, minutes: nat, seconds: nat, total: nat)
    requires s == m + ":" + sec
    requires m != [] && AllDigits(m) && ParseNat(m) == minutes
    requires |sec| == 2 && AllDigits(sec) && ParseNat(sec) == seconds && seconds < 60
    requires total == minutes * 60 + seconds
    ensures ParseClock(s) == Some(total)
  {
    ParseClockOf(m, sec);
  }

  /** A number below 100, padded to two digits, is two digits that read back
      as the number. */
  lemma PaddedReadsBack(n: nat)
    requires n < 100
    ensures var p := PadStart2(NatToString(n)); |p| == 2 && AllDigits(p) && ParseNat(p) == n
  {
    NatToStringShort(n);
    ParsePadded(NatToString(n));
    ParseNatToString(n);
  }

  lemma {:induction false} IndexOfCharAfter(a: string, b: string, c: char)
    requires c !in a && b != [] && b[0] == c
    ensures IndexOfChar(a + b, c) == |a|
  {
    if a != [] {
      assert (a + b)[1..] == a[1..] + b;
      IndexOfCharAfter(a[1..], b, c);
    } else {
      assert a + b == b;
    }
  }

  /** `text` occurs in `s`. */
  predicate Contains(s: string, text: string) {
    exists i :: 0 <= i <= |s| && OccursAt(s, text, i)
  }

  predicate OccursAt(s: string, text: string, i: nat) {
    i + |text| <= |s| && s[i..i + |text|] == text
  }

  lemma ContainsMiddle(a: string, text: string, b: string)
    ensures Contains(a + text + b, text)
  {
    var s := a + text + b;
    assert s[|a|..|a| + |text|] == text;
    assert OccursAt(s, text, |a|);
  }
}
