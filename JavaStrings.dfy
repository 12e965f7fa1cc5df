/**
 * The java.lang.String and Integer operations the preference listeners rely on:
 * white space, strip, isBlank, split on one character, join, parseInt and
 * toString.
 */
module JavaStrings {
  import opened Options
  import opened Numerals

  const MIN_INT: int := -0x8000_0000
  const MAX_INT: int := 0x7FFF_FFFF

  /**
   * Character.isWhitespace: the Unicode space, line and paragraph separators other
   * than the no-break spaces U+00A0, U+2007 and U+202F, plus U+0009 to U+000D and
   * U+001C to U+001F.
   */
  predicate IsWhitespace(c: char)
  {
    var u := c as int;
    || 0x09 <= u <= 0x0D
    || 0x1C <= u <= 0x20
    || u == 0x1680
    || 0x2000 <= u <= 0x2006
    || 0x2008 <= u <= 0x200A
    || u == 0x2028 || u == 0x2029 || u == 0x205F || u == 0x3000
  }

  /** String.isBlank: empty or white space only. */
  predicate IsBlank(s: string)
    decreases |s|
  {
    s == [] || (IsWhitespace(s[0]) && IsBlank(s[1..]))
  }

  /** A concatenation is blank exactly when both parts are. */
  lemma {:induction false} IsBlankAppend(a: string, b: string)
    ensures IsBlank(a + b) <==> IsBlank(a) && IsBlank(b)
    decreases |a|
  {
    if a == [] {
      assert a + b == b;
    } else {
      assert (a + b)[1..] == a[1..] + b;
      IsBlankAppend(a[1..], b);
    }
  }

  /** The string without its leading white space. */
  function TrimStart(s: string): (r: string)
    ensures r == "" || !IsWhitespace(r[0])
    ensures IsBlank(s) <==> r == ""
    ensures |r| <= |s| && r == s[|s| - |r|..]
    decreases |s|
  {
    if s != [] && IsWhitespace(s[0]) then TrimStart(s[1..]) else s
  }

  /** TrimStart drops only white space. */
  lemma {:induction false} TrimStartDropsBlank(s: string)
    ensures IsBlank(s[..|s| - |TrimStart(s)|])
    decreases |s|
  {
    if s != [] && IsWhitespace(s[0]) {
      var k := |s| - |TrimStart(s)|;
      TrimStartDropsBlank(s[1..]);
      assert s[..k][1..] == s[1..][..k - 1];
    } else {
      assert s[..0] == [];
    }
  }

  /** The string without its trailing white space. */
  function TrimEnd(s: string): (r: string)
    ensures r == "" || !IsWhitespace(r[|r| - 1])
    ensures |r| <= |s| && r == s[..|r|]
    ensures s != "" && !IsWhitespace(s[0]) ==> r != "" && r[0] == s[0]
    decreases |s|
  {
    if s != [] && IsWhitespace(s[|s| - 1]) then TrimEnd(s[..|s| - 1]) else s
  }

  /** TrimEnd drops only white space. */
  lemma {:induction false} TrimEndDropsBlank(s: string)
    ensures IsBlank(s[|TrimEnd(s)|..])
    decreases |s|
  {
    if s != [] && IsWhitespace(s[|s| - 1]) {
      var init := s[..|s| - 1];
      var k := |TrimEnd(init)|;
      TrimEndDropsBlank(init);
      assert s[k..] == init[k..] + [s[|s| - 1]];
      IsBlankAppend(init[k..], [s[|s| - 1]]);
    } else {
      assert s[|s|..] == [];
    }
  }

  /**
   * String.strip: the string without its leading and trailing white space. It is
   * empty exactly for a blank string, and otherwise starts and ends with a
   * character that is not white space.
   */
  function Strip(s: string): (r: string)
    ensures r == "" <==> IsBlank(s)
    ensures r != "" ==> !IsWhitespace(r[0]) && !IsWhitespace(r[|r| - 1])
    ensures exists i, j :: 0 <= i <= j <= |s| && r == s[i..j] && IsBlank(s[..i]) && IsBlank(s[j..])
  {
    TrimBothInfix(s);
    TrimEnd(TrimStart(s))
  }

  lemma TrimBothInfix(s: string)
    ensures var r := TrimEnd(TrimStart(s));
      exists i, j :: 0 <= i <= j <= |s| && r == s[i..j] && IsBlank(s[..i]) && IsBlank(s[j..])
  {
    var t := TrimStart(s);
    var r := TrimEnd(t);
    TrimStartDropsBlank(s);
    TrimEndDropsBlank(t);
    var i, j := InfixBetween(s, t, r);
    assert IsBlank(s[..i]) && IsBlank(s[j..]);
  }

  /** `r`, a prefix of the suffix `t` of `s`, is `s` less a head and a tail: the head
      `s` loses to `t` and the tail `t` loses to `r`. */
  lemma InfixBetween(s: string, t: string, r: string) returns (i: nat, j: nat)
    requires |t| <= |s| && t == s[|s| - |t|..]
    requires |r| <= |t| && r == t[..|r|]
    ensures i <= j <= |s| && r == s[i..j]
    ensures s[..i] == s[..|s| - |t|] && s[j..] == t[|r|..]
  {
    i := |s| - |t|;
    j := i + |r|;
    assert s[i..][..|r|] == s[i..j] && s[i..][|r|..] == s[j..];
  }

  /** A string that neither starts nor ends with white space is its own strip. */
  lemma StripKeeps(s: string)
    requires s == "" || (!IsWhitespace(s[0]) && !IsWhitespace(s[|s| - 1]))
    ensures Strip(s) == s
  {
    assert TrimStart(s) == s;
  }

  /** Stripping twice is stripping once. */
  lemma StripIdempotent(s: string)
    ensures Strip(Strip(s)) == Strip(s)
  {
    StripKeeps(Strip(s));
  }

  /** Every piece of `s` between occurrences of `sep`, empty pieces included. */
  function Split(s: string, sep: char): (parts: seq<string>)
    ensures |parts| >= 1
    ensures forall i :: 0 <= i < |parts| ==> sep !in parts[i]
    decreases |s|
  {
    if s == [] then [""]
    else
      var rest := Split(s[1..], sep);
      if s[0] == sep then [""] + rest else [[s[0]] + rest[0]] + rest[1..]
  }

  /** String.join: the parts with `sep` between consecutive ones. */
  function Join(parts: seq<string>, sep: char): (r: string)
    ensures parts != [] ==> parts[0] <= r
    ensures |parts| > 1 ==> |r| > |parts[0]| && r[|parts[0]|] == sep
  {
    if parts == [] then ""
    else if |parts| == 1 then parts[0]
    else parts[0] + [sep] + Join(parts[1..], sep)
  }

  /** Joining the pieces back gives the original string. */
  lemma {:induction false} JoinSplit(s: string, sep: char)
    ensures Join(Split(s, sep), sep) == s
    decreases |s|
  {
    if s != [] {
      var rest := Split(s[1..], sep);
      JoinSplit(s[1..], sep);
      if s[0] == sep {
        assert ([""] + rest)[1..] == rest;
      } else {
        var parts := [[s[0]] + rest[0]] + rest[1..];
        if |rest| > 1 {
          assert parts[1..] == rest[1..];
          assert Join(rest, sep) == rest[0] + [sep] + Join(rest[1..], sep);
        }
      }
    }
  }

  function DropTrailingEmpty(parts: seq<string>): (r: seq<string>)
    ensures |r| <= |parts| && r == parts[..|r|]
    ensures forall i :: |r| <= i < |parts| ==> parts[i] == ""
    ensures r == [] || r[|r| - 1] != ""
  {
    if parts != [] && parts[|parts| - 1] == "" then DropTrailingEmpty(parts[..|parts| - 1]) else parts
  }

  /**
   * String.split on a single character: the string itself when the separator does
   * not occur, otherwise the pieces without the trailing empty ones.
   */
  function SplitJava(s: string, sep: char): (r: seq<string>)
    ensures sep !in s ==> r == [s]
    ensures sep in s ==> r == [] || r[|r| - 1] != ""
    ensures forall i :: 0 <= i < |r| ==> sep !in r[i]
  {
    if sep !in s then [s] else DropTrailingEmpty(Split(s, sep))
  }

  /**
   * When the separator occurs, the pieces String.split returns are the leading
   * pieces of `s` between separators, and every piece it drops is empty.
   */
  lemma SplitJavaPieces(s: string, sep: char)
    requires sep in s
    ensures var r, all := SplitJava(s, sep), Split(s, sep);
      && |r| <= |all| && r == all[..|r|]
      && forall i :: |r| <= i < |all| ==> all[i] == ""
  {
  }

  /** The string without its one optional leading sign. */
  function Unsigned(s: string): (d: string)
    ensures |d| <= |s|
  {
    if |s| > 0 && (s[0] == '-' || s[0] == '+') then s[1..] else s
  }

  /**
   * Integer.parseInt for ASCII digits: an optional sign and at least one digit, in
   * the range of int; anything else is a NumberFormatException. A negative number
   * may go one further than a positive one.
   */
  function ParseInt(s: string): (r: Option<int>)
    ensures Unsigned(s) == "" ==> r.None?
    ensures !AllDigitsOf(Unsigned(s), 10) ==> r.None?
    ensures Unsigned(s) != "" && AllDigitsOf(Unsigned(s), 10) ==>
      (r.Some? <==> Value(Unsigned(s), 10) <= (if s[0] == '-' then -MIN_INT else MAX_INT))
    ensures r.Some? ==> |s| > 0 && MIN_INT <= r.value <= MAX_INT
    ensures r.Some? ==> r.value == (if s[0] == '-' then 0 - Value(Unsigned(s), 10) as int else Value(Unsigned(s), 10))
  {
    var signed := |s| > 0 && (s[0] == '-' || s[0] == '+');
    var digits := Unsigned(s);
    if digits == [] || !AllDigitsOf(digits, 10) then None
    else
      var n: int := if signed && s[0] == '-' then 0 - Value(digits, 10) as int else Value(digits, 10);
      if MIN_INT <= n <= MAX_INT then Some(n) else None
  }

  /** Integer.toString: a minus sign for a negative number, then digits without leading zeros. */
  function IntToString(n: int): (r: string)
    ensures |r| >= 1 && (r[0] == '-' <==> n < 0)
    ensures Unsigned(r) != "" && AllDigitsOf(Unsigned(r), 10)
    ensures Unsigned(r)[0] == '0' ==> n == 0
  {
    if n < 0 then "-" + ToDigits(-n, 10) else ToDigits(n, 10)
  }

  /** Every int survives printing and parsing back. */
  lemma ParseIntToString(n: int)
    requires MIN_INT <= n <= MAX_INT
    ensures ParseInt(IntToString(n)) == Some(n)
  {
    var s := IntToString(n);
    var m := if n < 0 then -n else n;
    assert Unsigned(s) == ToDigits(m, 10) by {
      if n >= 0 {
        assert IsDigitOf(s[0], 10);
      }
    }
    assert Value(Unsigned(s), 10) == m by {
      DecimalValueOfToDigits(m);
    }
  }
}
