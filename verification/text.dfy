/**
 * Character classes and string operations of ECMAScript that the pages rely on:
 * the `\d` and `\s` regular-expression classes, `trim`, ASCII case mapping,
 * `includes`, `split` on a one-character separator and the decimal rendering
 * of integers.
 */
module Text {

  /** The `\d` class: the ten ASCII digits. */
  predicate IsDigit(c: char) {
    '0' <= c <= '9'
  }

  /**
   * The `\s` class, which is also the set `String.prototype.trim` removes:
   * ECMAScript WhiteSpace (tab, vertical tab, form feed, space, no-break space,
   * byte order mark and the Zs category) plus the four LineTerminators.
   */
  predicate IsWhitespace(c: char) {
    || c == '\t' || c == '\n' || c == '\U{000B}' || c == '\U{000C}' || c == '\r'
    || c == ' ' || c == '\U{00A0}' || c == '\U{1680}'
    || ('\U{2000}' <= c <= '\U{200A}')
    || c == '\U{2028}' || c == '\U{2029}' || c == '\U{202F}' || c == '\U{205F}'
    || c == '\U{3000}' || c == '\U{FEFF}'
  }

  predicate AllDigits(s: string) {
    forall i :: 0 <= i < |s| ==> IsDigit(s[i])
  }

  predicate NoWhitespace(s: string) {
    forall i :: 0 <= i < |s| ==> !IsWhitespace(s[i])
  }

  // ---------------------------------------------------------------------------
  // Removing a character class (`s.replace(/\D/g, '')`, `s.replace(/\s/g, '')`)
  // ---------------------------------------------------------------------------

  /** `s` with every character that `drop` selects removed, the rest kept in order. */
  function RemoveAll(s: string, drop: char -> bool): (r: string)
    ensures |r| <= |s|
    ensures forall i :: 0 <= i < |r| ==> !drop(r[i])
    ensures (forall i :: 0 <= i < |s| ==> !drop(s[i])) ==> r == s
  {
    if |s| == 0 then ""
    else if drop(s[0]) then RemoveAll(s[1..], drop)
    else [s[0]] + RemoveAll(s[1..], drop)
  }

  lemma {:induction false} RemoveAllAppend(a: string, b: string, drop: char -> bool)
    ensures RemoveAll(a + b, drop) == RemoveAll(a, drop) + RemoveAll(b, drop)
  {
    if |a| == 0 {
      assert a + b == b;
    } else {
      assert (a + b)[1..] == a[1..] + b;
      RemoveAllAppend(a[1..], b, drop);
    }
  }

  predicate NotDigit(c: char) {
    !IsDigit(c)
  }

  /** `s.replace(/\D/g, '')`: the digits of `s`, in order. */
  function DigitsOf(s: string): (r: string)
    ensures AllDigits(r)
    ensures AllDigits(s) ==> r == s
  {
    RemoveAll(s, NotDigit)
  }

  /** `s.replace(/\s/g, '')`: `s` without any whitespace. */
  function StripWhitespace(s: string): (r: string)
    ensures NoWhitespace(r)
    ensures NoWhitespace(s) ==> r == s
  {
    RemoveAll(s, IsWhitespace)
  }

  // ---------------------------------------------------------------------------
  // Case mapping (ASCII letters only)
  // ---------------------------------------------------------------------------

  function UpperChar(c: char): (d: char)
    ensures !('a' <= d <= 'z')
    ensures IsDigit(c) <==> IsDigit(d)
    ensures IsWhitespace(c) <==> IsWhitespace(d)
  {
    if 'a' <= c <= 'z' then (c as int - 32) as char else c
  }

  function LowerChar(c: char): (d: char)
    ensures !('A' <= d <= 'Z')
    ensures IsWhitespace(c) <==> IsWhitespace(d)
    ensures c == '\n' <==> d == '\n'
    ensures c == ' ' <==> d == ' '
  {
    if 'A' <= c <= 'Z' then (c as int + 32) as char else c
  }

  /** `s.toUpperCase()`, restricted to the ASCII letters. */
  function Upper(s: string): (r: string)
    ensures |r| == |s|
    ensures forall i :: 0 <= i < |s| ==> r[i] == UpperChar(s[i])
  {
    seq(|s|, i requires 0 <= i < |s| => UpperChar(s[i]))
  }

  /** Upper-casing keeps every digit and makes no new one. */
  lemma {:induction false} DigitsOfUpper(x: string)
    ensures DigitsOf(Upper(x)) == DigitsOf(x)
  {
    if |x| > 0 {
      DigitsOfUpper(x[1..]);
      assert Upper(x)[1..] == Upper(x[1..]);
    }
  }

  /** `s.toLowerCase()`, restricted to the ASCII letters. */
  function Lower(s: string): (r: string)
    ensures |r| == |s|
    ensures forall i :: 0 <= i < |s| ==> r[i] == LowerChar(s[i])
  {
    seq(|s|, i requires 0 <= i < |s| => LowerChar(s[i]))
  }

  lemma LowerAppend(a: string, b: string)
    ensures Lower(a + b) == Lower(a) + Lower(b)
  {
  }

  // ---------------------------------------------------------------------------
  // trim
  // ---------------------------------------------------------------------------

  function TrimStart(s: string): (r: string)
    ensures |r| <= |s| && r == s[|s| - |r|..]
    ensures |r| > 0 ==> !IsWhitespace(r[0])
    ensures forall i :: 0 <= i < |s| - |r| ==> IsWhitespace(s[i])
  {
    if |s| > 0 && IsWhitespace(s[0]) then TrimStart(s[1..]) else s
  }

  function TrimEnd(s: string): (r: string)
    ensures |r| <= |s| && r == s[..|r|]
    ensures |r| > 0 ==> !IsWhitespace(r[|r| - 1])
    ensures forall i :: |r| <= i < |s| ==> IsWhitespace(s[i])
  {
    if |s| > 0 && IsWhitespace(s[|s| - 1]) then TrimEnd(s[..|s| - 1]) else s
  }

  /** `s.trim()`: `s` without its leading and trailing whitespace. */
  function Trim(s: string): (r: string)
    ensures |r| > 0 ==> !IsWhitespace(r[0]) && !IsWhitespace(r[|r| - 1])
    ensures (|s| == 0 || (!IsWhitespace(s[0]) && !IsWhitespace(s[|s| - 1]))) ==> r == s
    ensures forall i :: 0 <= i < |r| ==> r[i] in s
  {
    var t := TrimStart(s);
    var r := TrimEnd(t);
    TrimInside(s, t, r);
    r
  }

  lemma TrimInside(s: string, t: string, r: string)
    requires |t| <= |s| && t == s[|s| - |t|..]
    requires |r| <= |t| && r == t[..|r|]
    ensures forall i :: 0 <= i < |r| ==> r[i] in s
  {
    forall i | 0 <= i < |r| ensures r[i] in s {
      assert r[i] == t[i] == s[|s| - |t| + i];
    }
  }

  // ---------------------------------------------------------------------------
  // includes
  // ---------------------------------------------------------------------------

  predicate OccursAt(text: string, q: string, i: nat) {
    i + |q| <= |text| && text[i..i + |q|] == q
  }

  /** `text.includes(q)`. */
  predicate Contains(text: string, q: string) {
    exists i: nat :: i <= |text| && OccursAt(text, q, i)
  }

  // ---------------------------------------------------------------------------
  // split on a one-character separator
  // ---------------------------------------------------------------------------

  /** `s.split(sep)` for a one-character separator: at least one part, none holding `sep`. */
  function Split(s: string, sep: char): (parts: seq<string>)
    ensures |parts| >= 1
    ensures forall k :: 0 <= k < |parts| ==> sep !in parts[k]
  {
    if |s| == 0 then [""]
    else
      var rest := Split(s[1..], sep);
      if s[0] == sep then [""] + rest
      else
        var parts := [[s[0]] + rest[0]] + rest[1..];
        assert forall k :: 1 <= k < |parts| ==> parts[k] == rest[k];
        parts
  }

  /** `parts.join(sep)`. */
  function Join(parts: seq<string>, sep: char): string
    requires |parts| >= 1
  {
    if |parts| == 1 then parts[0] else parts[0] + [sep] + Join(parts[1..], sep)
  }

  /** Splitting and joining again gives back the string. */
  lemma {:induction false} JoinSplit(s: string, sep: char)
    ensures Join(Split(s, sep), sep) == s
  {
    if |s| > 0 {
      var rest := Split(s[1..], sep);
      JoinSplit(s[1..], sep);
      if s[0] != sep && |rest| > 1 {
        assert Split(s, sep)[1..] == rest[1..];
      }
    }
  }

  /** `s.indexOf(c)` when `c` occurs in `s`. */
  function IndexOf(s: string, c: char): (i: nat)
    requires c in s
    ensures i < |s| && s[i] == c && c !in s[..i]
  {
    if s[0] == c then 0
    else
      assert c in s[1..] by {
        assert s == [s[0]] + s[1..];
      }
      var j := IndexOf(s[1..], c);
      assert s[..j + 1] == [s[0]] + s[1..][..j];
      j + 1
  }

  lemma IndexOfUnique(s: string, c: char, j: nat)
    requires j < |s| && s[j] == c && c !in s[..j]
    ensures c in s && IndexOf(s, c) == j
  {
  }

  /** `s.lastIndexOf(c)` when `c` occurs in `s`. */
  function LastIndexOf(s: string, c: char): (i: nat)
    requires c in s
    ensures i < |s| && s[i] == c && c !in s[i + 1..]
  {
    if s[|s| - 1] == c then |s| - 1
    else
      assert c in s[..|s| - 1] by {
        assert s == s[..|s| - 1] + [s[|s| - 1]];
      }
      var j := LastIndexOf(s[..|s| - 1], c);
      assert s[j + 1..] == s[..|s| - 1][j + 1..] + [s[|s| - 1]];
      j
  }

  lemma LastIndexOfUnique(s: string, c: char, j: nat)
    requires j < |s| && s[j] == c && c !in s[j + 1..]
    ensures LastIndexOf(s, c) == j
  {
  }

  /** The first part of `s.split(sep)` is what precedes the first separator. */
  lemma {:induction false} SplitFirstPart(s: string, sep: char)
    ensures Split(s, sep)[0] == if sep in s then s[..IndexOf(s, sep)] else s
    ensures |Split(s, sep)| == 1 <==> sep !in s
  {
    if |s| > 0 {
      SplitFirstPart(s[1..], sep);
      assert sep in s <==> s[0] == sep || sep in s[1..] by {
        assert s == [s[0]] + s[1..];
      }
      if s[0] != sep && sep in s[1..] {
        assert IndexOf(s, sep) == IndexOf(s[1..], sep) + 1;
        assert s[..IndexOf(s, sep)] == [s[0]] + s[1..][..IndexOf(s[1..], sep)];
      }
    }
  }

  /** Without a separator, `split` gives the string back as the only part. */
  lemma SplitNone(s: string, sep: char)
    requires sep !in s
    ensures Split(s, sep) == [s]
  {
    SplitFirstPart(s, sep);
  }

  /** The last part of `s.split(sep)` is what follows the last separator. */
  lemma SplitLastPart(s: string, sep: char)
    ensures var parts := Split(s, sep);
      parts[|parts| - 1] == if sep in s then s[LastIndexOf(s, sep) + 1..] else s
  {
    if sep in s {
      SplitLastIn(s, sep);
    } else {
      SplitNone(s, sep);
    }
  }

  lemma {:induction false} SplitLastIn(s: string, sep: char)
    requires sep in s
    ensures var parts := Split(s, sep);
      parts[|parts| - 1] == s[LastIndexOf(s, sep) + 1..]
  {
    var tail := s[1..];
    assert s == [s[0]] + tail;
    if sep in tail {
      SplitLastIn(tail, sep);
      SplitFirstPart(tail, sep);
      SplitLastLater(s, sep);
    } else {
      SplitNone(tail, sep);
      assert Split(s, sep) == [""] + [tail];
      LastIndexOfUnique(s, sep, 0);
    }
  }

  /** Both ends of `s.split(sep)` when `s` holds a separator. */
  lemma SplitEnds(s: string, sep: char)
    requires sep in s
    ensures var parts := Split(s, sep);
      |parts| > 1 && parts[0] == s[..IndexOf(s, sep)] && parts[|parts| - 1] == s[LastIndexOf(s, sep) + 1..]
  {
    SplitFirstPart(s, sep);
    SplitLastIn(s, sep);
  }

  /** The step of `SplitLastPart` where the tail still holds a separator. */
  lemma SplitLastLater(s: string, sep: char)
    requires |s| > 0 && sep in s[1..]
    requires var rest := Split(s[1..], sep);
      |rest| > 1 && rest[|rest| - 1] == s[1..][LastIndexOf(s[1..], sep) + 1..]
    ensures var parts := Split(s, sep);
      parts[|parts| - 1] == s[LastIndexOf(s, sep) + 1..]
  {
    var tail := s[1..];
    var j := LastIndexOf(tail, sep);
    assert s[j + 1 + 1..] == tail[j + 1..];
    LastIndexOfUnique(s, sep, j + 1);
  }

  // ---------------------------------------------------------------------------
  // Decimal numerals
  // ---------------------------------------------------------------------------

  function DigitChar(d: nat): (c: char)
    requires d < 10
    ensures IsDigit(c)
  {
    ('0' as int + d) as char
  }

  function DigitValue(c: char): nat
    requires IsDigit(c)
  {
    c as int - '0' as int
  }

  /** `String(n)` for a non-negative integer: its decimal digits, without leading zeros. */
  function NatToDec(n: nat): (r: string)
    ensures |r| >= 1 && AllDigits(r)
    ensures n >= 10 ==> r[0] != '0'
  {
    if n < 10 then [DigitChar(n)] else NatToDec(n / 10) + [DigitChar(n % 10)]
  }

  /** The value of a string of decimal digits. */
  function ParseDec(s: string): nat
    requires AllDigits(s)
  {
    if |s| == 0 then 0 else ParseDec(s[..|s| - 1]) * 10 + DigitValue(s[|s| - 1])
  }

  lemma {:induction false} ParseNatToDec(n: nat)
    ensures ParseDec(NatToDec(n)) == n
  {
    if n >= 10 {
      var r := NatToDec(n);
      assert r[..|r| - 1] == NatToDec(n / 10);
      ParseNatToDec(n / 10);
    }
  }

  /** `String(i)` for an integer. */
  function IntToDec(i: int): (r: string)
    ensures |r| >= 1
    ensures i >= 0 ==> AllDigits(r)
    ensures i < 0 ==> r[0] == '-' && AllDigits(r[1..])
  {
    if i < 0 then "-" + NatToDec(-i) else NatToDec(i)
  }

  /** Distinct integers render differently. */
  lemma IntToDecInjective(i: int, j: int)
    requires IntToDec(i) == IntToDec(j)
    ensures i == j
  {
    var r := IntToDec(i);
    if i < 0 && j < 0 {
      assert NatToDec(-i) == r[1..];
      assert NatToDec(-j) == r[1..];
      calc {
        -i;
      == { ParseNatToDec(-i); }
        ParseDec(r[1..]);
      == { ParseNatToDec(-j); }
        -j;
      }
    } else if i >= 0 && j >= 0 {
      calc {
        i;
      == { ParseNatToDec(i); }
        ParseDec(r);
      == { ParseNatToDec(j); }
        j;
      }
    }
  }
}
