/** Shared value types and the few java.lang.String operations the services rely on. */
module Common {

  /** A Java reference that may be null, or a java.util.Optional. */
  datatype Option<+T> = None | Some(value: T) {
    function GetOr(default: T): T {
      match this
      case Some(v) => v
      case None => default
    }
  }

  /** A value or the exception that was raised instead. */
  datatype Result<+T, +E> = Ok(value: T) | Err(error: E)

  /**
   * The lookup every enum's fromString performs: walk the constants in
   * declaration order and stop at the first whose text equals `s`.
   */
  function FirstWithValue<T>(values: seq<T>, text: T -> string, s: string): (r: Option<T>)
    ensures r.Some? ==> r.value in values && text(r.value) == s
    ensures r.None? <==> forall v :: v in values ==> text(v) != s
  {
    if values == [] then None
    else if text(values[0]) == s then Some(values[0])
    else FirstWithValue(values[1..], text, s)
  }

  /** Characters removed by String.trim(): every code point up to and including U+0020. */
  predicate IsTrimmable(c: char) {
    c <= ' '
  }

  /** Character.isWhitespace, the test behind StringUtils.hasText. */
  predicate IsJavaWhitespace(c: char) {
    || c == ' ' || c == '\t' || c == '\n' || c == '\U{000B}' || c == '\U{000C}' || c == '\r'
    || ('\U{001C}' <= c <= '\U{001F}')
    || c == '\U{1680}' || ('\U{2000}' <= c <= '\U{2006}') || ('\U{2008}' <= c <= '\U{200A}')
    || c == '\U{2028}' || c == '\U{2029}' || c == '\U{205F}' || c == '\U{3000}'
  }

  function TrimStart(s: string): (r: string)
    ensures |r| <= |s| && r == s[|s| - |r|..]
    ensures r != [] ==> !IsTrimmable(r[0])
    ensures forall i :: 0 <= i < |s| - |r| ==> IsTrimmable(s[i])
  {
    if s != [] && IsTrimmable(s[0]) then TrimStart(s[1..]) else s
  }

  function TrimEnd(s: string): (r: string)
    ensures |r| <= |s| && r == s[..|r|]
    ensures r != [] ==> !IsTrimmable(r[|r| - 1])
    ensures forall i :: |r| <= i < |s| ==> IsTrimmable(s[i])
  {
    if s != [] && IsTrimmable(s[|s| - 1]) then TrimEnd(s[..|s| - 1]) else s
  }

  /** String.trim(): drops the trimmable characters at both ends and keeps the rest as it is. */
  function Trim(s: string): (r: string)
    ensures r != [] ==> !IsTrimmable(r[0]) && !IsTrimmable(r[|r| - 1])
    ensures forall c :: c in r ==> c in s
  {
    TrimEnd(TrimStart(s))
  }

  /** `s.trim().isEmpty()`: the string holds trimmable characters only. */
  predicate IsBlank(s: string) {
    forall c :: c in s ==> IsTrimmable(c)
  }

  lemma TrimEmptyIffBlank(s: string)
    ensures Trim(s) == [] <==> IsBlank(s)
  {
    if Trim(s) != [] {
      assert Trim(s)[0] in s;
    }
  }

  /** StringUtils.hasText: not null, and some character is not whitespace. */
  predicate HasText(s: Option<string>) {
    s.Some? && exists c :: c in s.value && !IsJavaWhitespace(c)
  }

  /** `s == null || s.isEmpty()` */
  predicate IsNullOrEmpty(s: Option<string>) {
    s.None? || s.value == []
  }

  /** String.toLowerCase(), on the ASCII letters. */
  function ToLowerAscii(s: string): (r: string)
    ensures |r| == |s|
    ensures forall i :: 0 <= i < |s| ==> r[i] == (if 'A' <= s[i] <= 'Z' then (s[i] as int + 32) as char else s[i])
  {
    if s == [] then []
    else [if 'A' <= s[0] <= 'Z' then (s[0] as int + 32) as char else s[0]] + ToLowerAscii(s[1..])
  }

  /** `s.trim().toLowerCase()`, the normalisation the request records apply to user names. */
  function TrimLower(s: string): (r: string)
    ensures |r| <= |s|
    ensures r != [] ==> !IsTrimmable(r[0]) && !IsTrimmable(r[|r| - 1])
  {
    var t := Trim(s);
    LowerKeepsEnds(t);
    ToLowerAscii(t)
  }

  /** Lower-casing maps a character above U+0020 to one above U+0020, so a trimmed string stays trimmed. */
  lemma LowerKeepsEnds(t: string)
    requires t != [] ==> !IsTrimmable(t[0]) && !IsTrimmable(t[|t| - 1])
    ensures var r := ToLowerAscii(t); r != [] ==> !IsTrimmable(r[0]) && !IsTrimmable(r[|r| - 1])
  {
    var r := ToLowerAscii(t);
    if r != [] {
      assert r[0] == (if 'A' <= t[0] <= 'Z' then (t[0] as int + 32) as char else t[0]);
      assert r[|r| - 1] == (if 'A' <= t[|t| - 1] <= 'Z' then (t[|t| - 1] as int + 32) as char else t[|t| - 1]);
    }
  }

  /** Each character of the result is the trimmed one or its lower case, and no ASCII capital is left. */
  lemma TrimLowerIsLowerCase(s: string)
    ensures var r := TrimLower(s);
      && |r| == |Trim(s)|
      && (forall i :: 0 <= i < |r| ==> !('A' <= r[i] <= 'Z'))
      && (forall i :: 0 <= i < |r| ==> r[i] == Trim(s)[i] || r[i] as int == Trim(s)[i] as int + 32)
  {
  }

  /**
   * The injected PasswordEncoder: `encode` hashes a secret, `matches` checks a
   * secret against a stored hash. Both are supplied by the caller.
   */
  datatype PasswordEncoder = PasswordEncoder(encode: string -> string, matches: (string, string) -> bool)

  /** String.startsWith */
  predicate StartsWith(s: string, prefix: string) {
    |prefix| <= |s| && s[..|prefix|] == prefix
  }

  /**
   * The UTF-16 code units of one character, as a Java String stores it: the
   * character itself below U+10000, else a high and a low surrogate.
   */
  function Utf16Units(c: char): (u: seq<int>)
    ensures |u| == (if c as int < 0x1_0000 then 1 else 2)
    ensures forall k :: 0 <= k < |u| ==> 0 <= u[k] < 0x1_0000
    ensures IsHighSurrogate(u[0]) <==> c as int >= 0x1_0000
  {
    if c as int < 0x1_0000 then [c as int]
    else
      var v := c as int - 0x1_0000;
      [0xD800 + v / 0x400, 0xDC00 + v % 0x400]
  }

  predicate IsHighSurrogate(unit: int) {
    0xD800 <= unit < 0xDC00
  }

  /** The code point a one- or two-unit encoding stands for. */
  function CodePointOf(u: seq<int>): int
    requires |u| == 1 || |u| == 2
  {
    if |u| == 1 then u[0] else 0x1_0000 + (u[0] - 0xD800) * 0x400 + (u[1] - 0xDC00)
  }

  lemma Utf16UnitsDecode(c: char)
    ensures CodePointOf(Utf16Units(c)) == c as int
  {
    if c as int >= 0x1_0000 {
      var v := c as int - 0x1_0000;
      assert v == (v / 0x400) * 0x400 + v % 0x400;
    }
  }

  /** A string as the sequence of its UTF-16 code units. */
  function Utf16(s: string): (u: seq<int>)
    ensures |u| >= |s|
    ensures s != [] ==> |Utf16Units(s[0])| <= |u| && u[..|Utf16Units(s[0])|] == Utf16Units(s[0])
  {
    if s == [] then [] else Utf16Units(s[0]) + Utf16(s[1..])
  }

  /** Distinct strings have distinct UTF-16 encodings. */
  lemma {:induction false} Utf16Injective(a: string, b: string)
    requires Utf16(a) == Utf16(b)
    ensures a == b
  {
    if a != [] && b != [] {
      var ua, ub := Utf16Units(a[0]), Utf16Units(b[0]);
      assert ua[0] == Utf16(a)[0] && ub[0] == Utf16(b)[0];
      assert |ua| == |ub|;
      assert ua == ub by {
        assert ua == Utf16(a)[..|ua|] && ub == Utf16(b)[..|ub|];
      }
      Utf16UnitsDecode(a[0]);
      Utf16UnitsDecode(b[0]);
      assert Utf16(a[1..]) == Utf16(a)[|ua|..] && Utf16(b[1..]) == Utf16(b)[|ub|..];
      Utf16Injective(a[1..], b[1..]);
      assert a == [a[0]] + a[1..] && b == [b[0]] + b[1..];
    }
  }

  /** Lexicographic comparison of code units: the difference at the first differing position, else the length difference. */
  function CompareUnits(x: seq<int>, y: seq<int>): (r: int)
    ensures r == 0 ==> x == y
  {
    if x == [] || y == [] then |x| - |y|
    else if x[0] != y[0] then x[0] - y[0]
    else CompareUnits(x[1..], y[1..])
  }

  /** String.compareTo, which compares UTF-16 code units, not code points. */
  function CompareTo(a: string, b: string): (r: int)
    ensures r == 0 ==> a == b
  {
    var r := CompareUnits(Utf16(a), Utf16(b));
    if r == 0 then Utf16Injective(a, b); r else r
  }

  lemma {:induction false} CompareUnitsAntisymmetric(x: seq<int>, y: seq<int>)
    ensures CompareUnits(x, y) == -CompareUnits(y, x)
  {
    if x != [] && y != [] && x[0] == y[0] {
      CompareUnitsAntisymmetric(x[1..], y[1..]);
    }
  }

  lemma CompareToAntisymmetric(a: string, b: string)
    ensures CompareTo(a, b) == -CompareTo(b, a)
  {
    CompareUnitsAntisymmetric(Utf16(a), Utf16(b));
  }

  /**
   * A character outside the Basic Multilingual Plane orders by its high
   * surrogate, below U+FFFF, and counts as two units in a length difference.
   */
  lemma CompareToUsesCodeUnits()
    ensures CompareTo("\U{FFFF}", "\U{1F600}") == 0xFFFF - 0xD83D
    ensures CompareTo("\U{1F600}", "") == 2
  {
    assert Utf16Units('\U{1F600}') == [0xD83D, 0xDE00];
    assert Utf16("\U{1F600}") == [0xD83D, 0xDE00];
    assert Utf16("\U{FFFF}") == [0xFFFF];
  }
}
