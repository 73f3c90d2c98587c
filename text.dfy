/**
 * The few Python string built-ins the monitor's logic relies on, stated over `seq<char>`:
 * `str.isspace`, `str.strip()`, `in` on strings, `str.replace('_', ' ')`, `int(str)`,
 * `str(int)` and `str.split(sep)`. (`str.startswith` is Dafny's prefix test `<=`.)
 */
module Text {
  import opened Wrappers

  /** The characters for which Python's `str.isspace()` holds. */
  predicate IsSpace(c: char) {
    || c == ' '
    || ('\t' <= c <= '\r')
    || ('\U{1c}' <= c <= '\U{1f}')
    || c == '\U{85}' || c == '\U{a0}' || c == '\U{1680}'
    || ('\U{2000}' <= c <= '\U{200a}')
    || c == '\U{2028}' || c == '\U{2029}' || c == '\U{202f}' || c == '\U{205f}' || c == '\U{3000}'
  }

  predicate IsDigit(c: char) {
    '0' <= c <= '9'
  }

  function DigitValue(c: char): (d: nat)
    requires IsDigit(c)
    ensures d < 10
  {
    c as int - '0' as int
  }

  function DigitChar(d: nat): (c: char)
    requires d < 10
    ensures IsDigit(c) && DigitValue(c) == d
  {
    ('0' as int + d) as char
  }

  /**
   * The characters `int()` skips around a number: those for which `str.isspace()` holds,
   * except the four ASCII separators U+001C..U+001F, which `int()` rejects.
   */
  predicate IsIntSpace(c: char) {
    IsSpace(c) && !('\U{1c}' <= c <= '\U{1f}')
  }

  /** Every character of `x` is blank. */
  predicate AllBlank(x: string, blank: char -> bool) {
    forall c :: c in x ==> blank(c)
  }

  /** Drops leading blanks and nothing else. */
  function TrimStart(s: string, blank: char -> bool): (r: string)
    ensures |r| <= |s| && r == s[|s| - |r|..]
    ensures r == [] || !blank(r[0])
    ensures forall i :: 0 <= i < |s| - |r| ==> blank(s[i])
  {
    if s != [] && blank(s[0]) then TrimStart(s[1..], blank) else s
  }

  /** Drops trailing blanks and nothing else. */
  function TrimEnd(s: string, blank: char -> bool): (r: string)
    ensures |r| <= |s| && r == s[..|r|]
    ensures r == [] || !blank(r[|r| - 1])
    ensures forall i :: |r| <= i < |s| ==> blank(s[i])
  {
    if s != [] && blank(s[|s| - 1]) then TrimEnd(s[..|s| - 1], blank) else s
  }

  /**
   * `s` without its leading and trailing blanks: `s` is blanks, then the result, then blanks,
   * and the result neither starts nor ends with a blank (`StripUnique`: no other result can).
   */
  function StripBy(s: string, blank: char -> bool): (r: string)
    ensures r == [] || (!blank(r[0]) && !blank(r[|r| - 1]))
    ensures exists a, b :: s == a + r + b && AllBlank(a, blank) && AllBlank(b, blank)
    ensures s == [] || (!blank(s[0]) && !blank(s[|s| - 1])) ==> r == s
  {
    var t := TrimStart(s, blank);
    var r := TrimEnd(t, blank);
    BlankPieces(s, t, r, blank);
    TrimmedEnds(s, t, r, blank);
    r
  }

  /** The two trims cut `s` into blanks, the result and blanks. */
  lemma BlankPieces(s: string, t: string, r: string, blank: char -> bool)
    requires |t| <= |s| && t == s[|s| - |t|..] && forall i :: 0 <= i < |s| - |t| ==> blank(s[i])
    requires |r| <= |t| && r == t[..|r|] && forall i :: |r| <= i < |t| ==> blank(t[i])
    ensures exists a, b :: s == a + r + b && AllBlank(a, blank) && AllBlank(b, blank)
  {
    var a, b := s[..|s| - |t|], t[|r|..];
    assert s == a + t;
    assert t == r + b;
    forall c | c in a ensures blank(c) {
      var i :| 0 <= i < |a| && a[i] == c;
      assert c == s[i];
    }
    forall c | c in b ensures blank(c) {
      var i :| 0 <= i < |b| && b[i] == c;
      assert c == t[|r| + i];
    }
    assert s == a + r + b && AllBlank(a, blank) && AllBlank(b, blank);
  }

  /** After both trims neither end is blank, and a text with no blank end is left as it is. */
  lemma TrimmedEnds(s: string, t: string, r: string, blank: char -> bool)
    requires |t| <= |s| && t == s[|s| - |t|..] && forall i :: 0 <= i < |s| - |t| ==> blank(s[i])
    requires t == [] || !blank(t[0])
    requires |r| <= |t| && r == t[..|r|] && forall i :: |r| <= i < |t| ==> blank(t[i])
    requires r == [] || !blank(r[|r| - 1])
    ensures r == [] || (!blank(r[0]) && !blank(r[|r| - 1]))
    ensures s == [] || (!blank(s[0]) && !blank(s[|s| - 1])) ==> r == s
  {
    if r != [] {
      assert r[0] == t[0];
    }
    if s != [] && !blank(s[0]) && !blank(s[|s| - 1]) {
      assert t == s;
      assert r == t;
    }
  }

  /** Stripping keeps only characters of `s`. */
  lemma StripByWithin(s: string, blank: char -> bool)
    ensures forall c :: c in StripBy(s, blank) ==> c in s
  {
    var t := TrimStart(s, blank);
    var r := TrimEnd(t, blank);
    assert StripBy(s, blank) == r;
    assert r == s[|s| - |t|..|s| - |t| + |r|];
  }

  /** Any split of `s` into blanks, a middle with no blank at either end, and blanks has the stripped text as its middle. */
  lemma StripUnique(s: string, blank: char -> bool, a: string, m: string, b: string)
    requires s == a + m + b && AllBlank(a, blank) && AllBlank(b, blank)
    requires m == [] || (!blank(m[0]) && !blank(m[|m| - 1]))
    ensures StripBy(s, blank) == m
  {
    if m == [] {
      assert s == (a + b) + [];
      assert AllBlank(a + b, blank);
      TrimStartOf(a + b, [], blank);
    } else {
      assert s == a + (m + b);
      TrimStartOf(a, m + b, blank);
      TrimEndOf(m, b, blank);
    }
  }

  lemma {:induction false} TrimStartOf(a: string, rest: string, blank: char -> bool)
    requires AllBlank(a, blank) && (rest == [] || !blank(rest[0]))
    ensures TrimStart(a + rest, blank) == rest
    decreases |a|
  {
    if a != [] {
      assert (a + rest)[1..] == a[1..] + rest;
      assert a[0] in a;
      assert AllBlank(a[1..], blank) by {
        forall c | c in a[1..] ensures blank(c) { assert c in a; }
      }
      TrimStartOf(a[1..], rest, blank);
    }
  }

  lemma {:induction false} TrimEndOf(rest: string, b: string, blank: char -> bool)
    requires AllBlank(b, blank) && (rest == [] || !blank(rest[|rest| - 1]))
    ensures TrimEnd(rest + b, blank) == rest
    decreases |b|
  {
    if b != [] {
      var init := b[..|b| - 1];
      assert (rest + b)[..|rest + b| - 1] == rest + init;
      assert b[|b| - 1] in b;
      assert AllBlank(init, blank) by {
        forall c | c in init ensures blank(c) { assert c in b; }
      }
      TrimEndOf(rest, init, blank);
    }
  }

  /** `s.strip()`: surrounding `str.isspace()` characters removed. */
  function Strip(s: string): string {
    StripBy(s, IsSpace)
  }

  /** Python's `t in s` for two strings. */
  predicate Contains(s: string, t: string)
    decreases |s|
  {
    t <= s || (s != [] && Contains(s[1..], t))
  }

  /** `s.replace('_', ' ')`. */
  function ReplaceUnderscores(s: string): (r: string)
    ensures |r| == |s|
    ensures forall i :: 0 <= i < |s| ==> r[i] == (if s[i] == '_' then ' ' else s[i])
  {
    if s == [] then [] else [if s[0] == '_' then ' ' else s[0]] + ReplaceUnderscores(s[1..])
  }

  /** A replaced string holds no underscore at all. */
  lemma ReplaceUnderscoresRemovesAll(s: string)
    ensures '_' !in ReplaceUnderscores(s)
  {
    var r := ReplaceUnderscores(s);
    forall i | 0 <= i < |r| ensures r[i] != '_' {
    }
  }

  /** A string without underscores is left as it is. */
  lemma ReplaceUnderscoresKeeps(s: string)
    requires '_' !in s
    ensures ReplaceUnderscores(s) == s
  {
  }

  /** The body of a base-10 literal accepted by `int()`: digits, with single underscores between digits. */
  predicate IsDigitGroup(s: string) {
    && |s| > 0 && IsDigit(s[0]) && IsDigit(s[|s| - 1])
    && (forall i :: 0 <= i < |s| ==> IsDigit(s[i]) || s[i] == '_')
    && (forall i :: 0 <= i < |s| - 1 ==> !(s[i] == '_' && s[i + 1] == '_'))
  }

  /** The number the digits of `s` spell, underscores ignored. */
  function DigitsValue(s: string): nat
    requires forall i :: 0 <= i < |s| ==> IsDigit(s[i]) || s[i] == '_'
  {
    if s == [] then 0
    else if s[|s| - 1] == '_' then DigitsValue(s[..|s| - 1])
    else DigitsValue(s[..|s| - 1]) * 10 + DigitValue(s[|s| - 1])
  }

  /**
   * `int(s)` with base 10: surrounding `IsIntSpace` characters are ignored, then one optional
   * sign and a digit group. `None` stands for the `ValueError` Python raises.
   */
  function ParseInt(s: string): Option<int> {
    ParseSigned(StripBy(s, IsIntSpace))
  }

  /** A stripped literal: one optional sign, then a digit group. */
  function ParseSigned(t: string): Option<int> {
    if t != [] && (t[0] == '-' || t[0] == '+') then
      if IsDigitGroup(t[1..]) then
        var v: int := DigitsValue(t[1..]);
        Some(if t[0] == '-' then -v else v)
      else None
    else if IsDigitGroup(t) then Some(DigitsValue(t))
    else None
  }

  /** Text without a single digit, such as "" or "N/A", is never a number. */
  lemma ParseIntNeedsDigit(s: string)
    requires forall i :: 0 <= i < |s| ==> !IsDigit(s[i])
    ensures ParseInt(s) == None
  {
    var t := StripBy(s, IsIntSpace);
    StripByWithin(s, IsIntSpace);
    forall i | 0 <= i < |t| ensures !IsDigit(t[i]) {
      assert t[i] in t;
    }
    ParseSignedNeedsDigit(t);
  }

  /** A literal without a digit is rejected. */
  lemma ParseSignedNeedsDigit(t: string)
    requires forall i :: 0 <= i < |t| ==> !IsDigit(t[i])
    ensures ParseSigned(t) == None
  {
    if t != [] && (t[0] == '-' || t[0] == '+') && |t| > 1 {
      assert t[1..][0] == t[1];
    }
  }

  /** Neither "" nor "N/A" is a number. */
  lemma EmptyAndNotAvailableAreNotNumbers()
    ensures ParseInt("") == None && ParseInt("N/A") == None
  {
    ParseIntNeedsDigit("");
    var na := "N/A";
    assert na[0] == 'N' && na[1] == '/' && na[2] == 'A';
    ParseIntNeedsDigit(na);
  }

  /** `str(n)` for a natural number: its decimal digits, without leading zeros. */
  function NatToString(n: nat): (r: string)
    ensures |r| > 0
    ensures forall i :: 0 <= i < |r| ==> IsDigit(r[i])
  {
    if n < 10 then [DigitChar(n)] else NatToString(n / 10) + [DigitChar(n % 10)]
  }

  /** `str(n)`: a minus sign for negative numbers, then the decimal digits. */
  function IntToString(n: int): string {
    if n < 0 then "-" + NatToString(-n) else NatToString(n)
  }

  /** The text of a number starts with a digit or a minus sign. */
  lemma IntToStringStart(n: int)
    ensures |IntToString(n)| > 0 && (IntToString(n)[0] == '-' || IsDigit(IntToString(n)[0]))
  {
  }

  lemma {:induction false} NatToStringValue(n: nat)
    ensures DigitsValue(NatToString(n)) == n
  {
    if n >= 10 {
      var s := NatToString(n);
      assert s[..|s| - 1] == NatToString(n / 10);
      NatToStringValue(n / 10);
    }
  }

  /** `int(str(n)) == n`: the text written for a number parses back to it. */
  lemma ParseIntOfIntToString(n: int)
    ensures ParseInt(IntToString(n)) == Some(n)
  {
    var m: nat := if n < 0 then -n else n;
    var digits := NatToString(m);
    NatToStringValue(m);
    StripKeepsNumber(IntToString(n), digits);
    ParseSignedDigits(digits);
  }

  /** A run of digits parses to its value, and with a minus sign in front to its negation. */
  lemma ParseSignedDigits(digits: string)
    requires digits != [] && forall i :: 0 <= i < |digits| ==> IsDigit(digits[i])
    ensures ParseSigned(digits) == Some(DigitsValue(digits))
    ensures ParseSigned("-" + digits) == Some(-(DigitsValue(digits) as int))
  {
    assert IsDigitGroup(digits);
    assert ("-" + digits)[1..] == digits;
  }

  /** The text of a number has no surrounding whitespace for `int()` to skip. */
  lemma StripKeepsNumber(s: string, digits: string)
    requires digits != [] && forall i :: 0 <= i < |digits| ==> IsDigit(digits[i])
    requires s == digits || s == "-" + digits
    ensures StripBy(s, IsIntSpace) == s
  {
    assert IsDigit(s[|s| - 1]);
    assert s[0] == '-' || IsDigit(s[0]);
    assert s == [] + s + [];
    StripUnique(s, IsIntSpace, [], s, []);
  }

  /** Python's `s.split(sep)` with a one-character separator. */
  function Split(s: string, sep: char): (parts: seq<string>)
    ensures |parts| >= 1
    ensures forall i :: 0 <= i < |parts| ==> sep !in parts[i]
  {
    if s == [] then [""]
    else
      var rest := Split(s[1..], sep);
      if s[0] == sep then [""] + rest
      else [[s[0]] + rest[0]] + rest[1..]
  }

  /** `sep.join(parts)`. */
  function Join(parts: seq<string>, sep: char): string
    requires |parts| >= 1
  {
    if |parts| == 1 then parts[0] else parts[0] + [sep] + Join(parts[1..], sep)
  }

  /** Joining the pieces of a split gives back the original string. */
  lemma {:induction false} JoinSplit(s: string, sep: char)
    ensures Join(Split(s, sep), sep) == s
  {
    if s != [] {
      var rest := Split(s[1..], sep);
      JoinSplit(s[1..], sep);
      if s[0] != sep {
        var parts := Split(s, sep);
        if |rest| > 1 {
          assert parts[1..] == rest[1..];
        }
      }
    }
  }

  /** Splitting a join of separator-free pieces gives back the pieces. */
  lemma {:induction false} SplitJoin(parts: seq<string>, sep: char)
    requires |parts| >= 1
    requires forall i :: 0 <= i < |parts| ==> sep !in parts[i]
    ensures Split(Join(parts, sep), sep) == parts
  {
    if |parts| == 1 {
      SplitPiece(parts[0], [], sep);
    } else {
      SplitJoin(parts[1..], sep);
      SplitPiece(parts[0], Join(parts[1..], sep), sep);
      assert [parts[0]] + parts[1..] == parts;
    }
  }

  /** A separator-free piece splits to itself, and a separator after it starts the next piece. */
  lemma {:induction false} SplitPiece(p: string, tail: string, sep: char)
    requires sep !in p
    ensures Split(p, sep) == [p]
    ensures Split(p + [sep] + tail, sep) == [p] + Split(tail, sep)
  {
    if p == [] {
      assert ([sep] + tail)[1..] == tail;
    } else {
      SplitPiece(p[1..], tail, sep);
      assert p == [p[0]] + p[1..];
      var whole := p + [sep] + tail;
      assert whole[1..] == p[1..] + [sep] + tail;
    }
  }
}
