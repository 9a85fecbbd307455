/** The string operations the tool relies on, written over ASCII:
    `str.strip()`, `str.lower()`, `str.upper()`, `str.split('.')`, `'.'.join(...)`,
    `os.path.basename` and `int(...)` on a typed answer. */
module Text {
  import opened Wrappers

  /** The characters Python's `str.isspace()` accepts, which are also the ones
      `str.strip()` and `int(...)` drop: tab to carriage return, the separators
      0x1C-0x1F, space, next line, no-break space, and the Unicode space separators and
      line and paragraph separators. */
  predicate IsSpace(c: char) {
    var n := c as int;
    || 9 <= n <= 13 || 28 <= n <= 32 || n == 0x85 || n == 0xA0 || n == 0x1680
    || 0x2000 <= n <= 0x200A || n == 0x2028 || n == 0x2029 || n == 0x202F || n == 0x205F
    || n == 0x3000
  }

  /** A string with no whitespace at either end. */
  predicate Trimmed(s: string) {
    |s| == 0 || (!IsSpace(s[0]) && !IsSpace(s[|s| - 1]))
  }

  /** `str.lstrip()`: the suffix left after dropping leading whitespace. */
  function StripLeft(s: string): (r: string)
    ensures |r| <= |s| && r == s[|s| - |r|..]
    ensures forall k :: 0 <= k < |s| - |r| ==> IsSpace(s[k])
    ensures |r| > 0 ==> !IsSpace(r[0])
    decreases |s|
  {
    if |s| > 0 && IsSpace(s[0]) then StripLeft(s[1..]) else s
  }

  /** `str.rstrip()`: the prefix left after dropping trailing whitespace. */
  function StripRight(s: string): (r: string)
    ensures |r| <= |s| && r == s[..|r|]
    ensures forall k :: |r| <= k < |s| ==> IsSpace(s[k])
    ensures |r| > 0 ==> !IsSpace(r[|r| - 1])
    decreases |s|
  {
    if |s| > 0 && IsSpace(s[|s| - 1]) then StripRight(s[..|s| - 1]) else s
  }

  /** `str.strip()`: a slice of `s` with no whitespace at either end, obtained by
      dropping only whitespace. */
  function Strip(s: string): (r: string)
    ensures Trimmed(r)
    ensures |r| <= |s|
  {
    StripRight(StripLeft(s))
  }

  /** Every character of a stripped string comes from the original. */
  lemma StripKeepsCharacters(s: string)
    ensures forall k :: 0 <= k < |Strip(s)| ==> Strip(s)[k] in s
  {
    var u := StripLeft(s);
    var r := StripRight(u);
    var off := |s| - |u|;
    assert u == s[off..];
    assert r == u[..|r|];
    forall k | 0 <= k < |r|
      ensures r[k] in s
    {
      assert r[k] == s[off + k];
    }
  }

  /** Stripping a string with no whitespace at either end changes nothing. */
  lemma StripKeepsTrimmed(t: string)
    requires Trimmed(t)
    ensures Strip(t) == t
  {
    StripLeftFixed(t);
    StripRightFixed(t);
  }

  lemma StripLeftFixed(t: string)
    requires |t| == 0 || !IsSpace(t[0])
    ensures StripLeft(t) == t
  {
  }

  lemma StripRightFixed(t: string)
    requires |t| == 0 || !IsSpace(t[|t| - 1])
    ensures StripRight(t) == t
  {
  }

  function LowerChar(c: char): char {
    if 'A' <= c <= 'Z' then (c as int + 32) as char else c
  }

  function UpperChar(c: char): char {
    if 'a' <= c <= 'z' then (c as int - 32) as char else c
  }

  /** `str.lower()` on ASCII letters. */
  function Lower(s: string): (r: string)
    ensures |r| == |s|
  {
    seq(|s|, i requires 0 <= i < |s| => LowerChar(s[i]))
  }

  /** `str.upper()` on ASCII letters. */
  function Upper(s: string): (r: string)
    ensures |r| == |s|
  {
    seq(|s|, i requires 0 <= i < |s| => UpperChar(s[i]))
  }

  /** Upper-casing twice is upper-casing once, so a name that was already normalised
      matches itself. */
  lemma UpperIdempotent(s: string)
    ensures Upper(Upper(s)) == Upper(s)
  {
  }

  /** A string in which every character is its own lower-case form. */
  predicate IsLowerCase(s: string) {
    forall i :: 0 <= i < |s| ==> LowerChar(s[i]) == s[i]
  }

  lemma LowerIsLowerCase(s: string)
    ensures IsLowerCase(Lower(s))
  {
  }

  lemma LowerCaseFixed(s: string)
    requires IsLowerCase(s)
    ensures Lower(s) == s
  {
  }

  /** Stripping a lower-case string keeps it lower-case, since it only drops characters. */
  lemma StripKeepsLowerCase(s: string)
    requires IsLowerCase(s)
    ensures IsLowerCase(Strip(s))
  {
    var r := Strip(s);
    StripKeepsCharacters(s);
    forall i | 0 <= i < |r|
      ensures LowerChar(r[i]) == r[i]
    {
      assert r[i] in s;
      var j :| 0 <= j < |s| && s[j] == r[i];
    }
  }

  // ----- '.'.join and str.split('.') -----

  predicate DotFree(s: string) {
    forall i :: 0 <= i < |s| ==> s[i] != '.'
  }

  /** `s.split('.')`: the pieces between dots, always at least one. */
  function SplitDots(s: string): (parts: seq<string>)
    ensures |parts| >= 1
    decreases |s|
  {
    if |s| == 0 then [""]
    else
      var rest := SplitDots(s[1..]);
      if s[0] == '.' then [""] + rest else [[s[0]] + rest[0]] + rest[1..]
  }

  lemma {:induction false} SplitDotFreePrefix(w: string, t: string)
    requires DotFree(w)
    ensures SplitDots(w + t) == [w + SplitDots(t)[0]] + SplitDots(t)[1..]
    decreases |w|
  {
    if |w| == 0 {
      assert w + t == t;
      assert w + SplitDots(t)[0] == SplitDots(t)[0];
    } else {
      assert (w + t)[0] == w[0];
      assert (w + t)[1..] == w[1..] + t;
      SplitDotFreePrefix(w[1..], t);
      assert [w[0]] + (w[1..] + SplitDots(t)[0]) == w + SplitDots(t)[0];
    }
  }

  /** A dot-free string splits into itself. */
  lemma SplitDotFree(w: string)
    requires DotFree(w)
    ensures SplitDots(w) == [w]
  {
    SplitDotFreePrefix(w, "");
    assert w + "" == w;
  }

  // ----- os.path.basename -----

  /** `os.path.basename`: the longest suffix that holds no '/'. */
  function Basename(path: string): (name: string)
    ensures |name| <= |path| && name == path[|path| - |name|..]
    ensures forall i :: 0 <= i < |name| ==> name[i] != '/'
    ensures |name| < |path| ==> path[|path| - |name| - 1] == '/'
    decreases |path|
  {
    if |path| == 0 || path[|path| - 1] == '/' then ""
    else Basename(path[..|path| - 1]) + [path[|path| - 1]]
  }

  // ----- int(...) on a typed answer -----

  predicate IsDigit(c: char) {
    '0' <= c <= '9'
  }

  /** Decimal digits, where a single underscore may stand between two digits (read
      from the last digit back): "1_000" is a numeral, "_1", "1_" and "1__0" are not. */
  predicate IsNumeral(s: string)
    decreases |s|
  {
    && |s| > 0 && IsDigit(s[|s| - 1])
    && (|s| == 1 || IsNumeral(s[..|s| - 1])
        || (|s| >= 3 && s[|s| - 2] == '_' && IsNumeral(s[..|s| - 2])))
  }

  /** The value of a numeral; underscores add nothing. */
  function NumeralValue(s: string): nat
    requires IsNumeral(s)
    decreases |s|
  {
    var d := s[|s| - 1] as int - '0' as int;
    if |s| == 1 then d
    else if s[|s| - 2] == '_' then
      assert !IsNumeral(s[..|s| - 1]) by { assert s[..|s| - 1][|s| - 2] == '_'; }
      NumeralValue(s[..|s| - 2]) * 10 + d
    else NumeralValue(s[..|s| - 1]) * 10 + d
  }

  /** `int(s)` for a string: surrounding whitespace, an optional sign, then a numeral
      in ASCII digits; anything else raises ValueError, which is None here. */
  function ParseInt(s: string): Option<int> {
    var t := Strip(s);
    if |t| > 0 && (t[0] == '+' || t[0] == '-') then
      if IsNumeral(t[1..]) then
        var magnitude: int := NumeralValue(t[1..]);
        Some(if t[0] == '-' then -magnitude else magnitude)
      else None
    else if IsNumeral(t) then Some(NumeralValue(t))
    else None
  }

  /** An underscore between digits is accepted and ignored. */
  lemma UnderscoreBetweenDigits()
    ensures ParseInt("1_0") == Some(10)
  {
    StripKeepsTrimmed("1_0");
    assert "1_0"[..1] == "1";
    assert IsNumeral("1") && NumeralValue("1") == 1;
    assert IsNumeral("1_0");
  }

  /** An underscore at either end, or two in a row, is refused. */
  lemma MisplacedUnderscores()
    ensures ParseInt("_1") == None && ParseInt("1_") == None && ParseInt("1__0") == None
  {
    Refused("_1");
    Refused("1_");
    assert "1__0"[..3] == "1__" && "1__0"[..2] == "1_";
    assert !IsNumeral("1__") by { assert "1__"[2] == '_'; }
    Refused("1__0");
  }

  /** A trimmed string with no sign that is not a numeral does not parse. */
  lemma Refused(t: string)
    requires Trimmed(t) && |t| > 0 && t[0] != '+' && t[0] != '-' && !IsNumeral(t)
    ensures ParseInt(t) == None
  {
    StripKeepsTrimmed(t);
  }

  /** The decimal form in which a menu shows the number `n` (`f"[{i}]"`). */
  function NatToString(n: nat): string
    decreases n
  {
    if n < 10 then [('0' as int + n) as char]
    else NatToString(n / 10) + [('0' as int + n % 10) as char]
  }

  lemma {:induction false} NatToStringNumeral(n: nat)
    ensures IsNumeral(NatToString(n)) && NumeralValue(NatToString(n)) == n
    ensures IsDigit(NatToString(n)[0]) && Trimmed(NatToString(n))
    decreases n
  {
    if n >= 10 {
      NatToStringNumeral(n / 10);
      var s := NatToString(n);
      assert s[..|s| - 1] == NatToString(n / 10);
      assert s[0] == NatToString(n / 10)[0];
    }
  }

  /** Typing back the number a menu shows parses to that number. */
  lemma ParseShownNumber(n: nat)
    ensures ParseInt(NatToString(n)) == Some(n)
  {
    var s := NatToString(n);
    NatToStringNumeral(n);
    StripKeepsTrimmed(s);
  }
}
