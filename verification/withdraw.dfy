/**
 * The withdraw page: the as-you-type formatters of the "add account" form,
 * its validation, the account option it adds to the drop-down, the submit
 * guard of the withdrawal form, the quick-amount buttons and the history box
 * that shows the three newest withdrawals.
 */
module Withdraw {
  import opened Wrappers
  import opened Text
  import opened Calendar
  import opened Sorting
  import opened Entities

  // ===========================================================================
  // The regular expressions /(\d{3})(\d{3})/ and /(\d{3})(\d{3})(\d{3})/
  // ===========================================================================

  predicate DigitRunAt(s: string, n: nat, i: nat) {
    i + n <= |s| && AllDigits(s[i..i + n])
  }

  /** The leftmost position at or after `from` where `n` digits in a row start. */
  function FirstDigitRunFrom(s: string, n: nat, from: nat): (r: Option<nat>)
    ensures r.Some? ==> from <= r.value && DigitRunAt(s, n, r.value)
    ensures r.Some? ==> forall j: nat :: from <= j < r.value ==> !DigitRunAt(s, n, j)
    ensures r.None? ==> forall j: nat :: from <= j ==> !DigitRunAt(s, n, j)
    decreases |s| - from
  {
    if from + n > |s| then None
    else if DigitRunAt(s, n, from) then Some(from)
    else FirstDigitRunFrom(s, n, from + 1)
  }

  /** Where a search for /\d{n}/ (no `g` flag) matches, if anywhere. */
  function FirstDigitRun(s: string, n: nat): Option<nat> {
    FirstDigitRunFrom(s, n, 0)
  }

  /** `'$1 $2 ...'`: the digits of a run with a space after every group of three but the last. */
  function GroupsOfThree(run: string): string {
    if |run| <= 3 then run else run[..3] + " " + GroupsOfThree(run[3..])
  }

  /**
   * `s.replace(/(\d{3})...(\d{3})/, '$1 ... $k')` with `groups` groups: the
   * first run of 3 * groups digits gets spaces between its groups; the rest of
   * `s` is kept, and `s` is returned unchanged when there is no such run.
   */
  function SpaceFirstDigitRun(s: string, groups: nat): string {
    match FirstDigitRun(s, 3 * groups)
    case None => s
    case Some(i) => s[..i] + GroupsOfThree(s[i..i + 3 * groups]) + s[i + 3 * groups..]
  }

  // ===========================================================================
  // Phone numbers
  // ===========================================================================

  /** `formatPhoneNumber`: the display form of a phone number (the first nine-digit run spaced 3-3-3). */
  function FormatPhoneNumber(phone: string): string {
    SpaceFirstDigitRun(phone, 3)
  }

  /** The digits of the input, cut to the first nine. */
  function CappedDigits(input: string): (v: string)
    ensures |v| <= 9 && AllDigits(v)
  {
    var d := DigitsOf(input);
    if |d| > 9 then d[..9] else d
  }

  /** `formatPhoneNumberInput`: the value the phone field is rewritten to on every keystroke. */
  function FormatPhoneNumberInput(input: string): string {
    var v := CappedDigits(input);
    if |v| > 6 then SpaceFirstDigitRun(v, 3)
    else if |v| > 3 then SpaceFirstDigitRun(v, 2)
    else v
  }

  /**
   * The layout the phone field is meant to show: `ddd ddd ddd` for nine digits,
   * `ddd ddd` for six, and the bare digits for every other count (the regular
   * expressions need a full run of digits to match).
   */
  function PhoneLayout(v: string): string {
    if |v| == 9 then v[..3] + " " + v[3..6] + " " + v[6..]
    else if |v| == 6 then v[..3] + " " + v[3..]
    else v
  }

  lemma NoRunLongerThanString(v: string, n: nat)
    requires |v| < n
    ensures FirstDigitRun(v, n) == None
  {
  }

  lemma RunAtStart(v: string, groups: nat)
    requires AllDigits(v) && |v| == 3 * groups
    ensures SpaceFirstDigitRun(v, groups) == GroupsOfThree(v)
  {
    var n := 3 * groups;
    assert DigitRunAt(v, n, 0) by {
      assert v[0..n] == v;
    }
    assert FirstDigitRunFrom(v, n, 0) == Some(0);
    assert v[..0] + GroupsOfThree(v[0..n]) + v[n..] == GroupsOfThree(v) by {
      assert v[0..n] == v;
    }
  }

  lemma GroupsOfNine(v: string)
    requires |v| == 9
    ensures GroupsOfThree(v) == v[..3] + " " + v[3..6] + " " + v[6..]
  {
    var rest := v[3..];
    assert GroupsOfThree(v) == v[..3] + " " + GroupsOfThree(rest);
    assert rest[..3] == v[3..6] && rest[3..] == v[6..];
    assert GroupsOfThree(rest) == rest[..3] + " " + GroupsOfThree(rest[3..]);
    assert GroupsOfThree(v[6..]) == v[6..];
  }

  /** The regular-expression rewriting gives exactly the intended layout of the capped digits. */
  lemma {:induction false} PhoneInputLayout(input: string)
    ensures FormatPhoneNumberInput(input) == PhoneLayout(CappedDigits(input))
  {
    var v := CappedDigits(input);
    if |v| == 9 {
      RunAtStart(v, 3);
      GroupsOfNine(v);
    } else if |v| == 6 {
      RunAtStart(v, 2);
    } else if |v| > 6 {
      NoRunLongerThanString(v, 9);
    } else if |v| > 3 {
      NoRunLongerThanString(v, 6);
    }
  }

  lemma DropSpace(a: string, b: string, drop: char -> bool)
    requires drop(' ')
    ensures RemoveAll(a + " " + b, drop) == RemoveAll(a, drop) + RemoveAll(b, drop)
  {
    RemoveAllAppend(a + " ", b, drop);
    RemoveAllAppend(a, " ", drop);
  }

  /** Removing a class that holds the space but no digit undoes the layout. */
  lemma PhoneLayoutRemove(v: string, drop: char -> bool)
    requires AllDigits(v) && |v| <= 9
    requires drop(' ') && forall c :: IsDigit(c) ==> !drop(c)
    ensures RemoveAll(PhoneLayout(v), drop) == v
  {
    if |v| == 9 {
      var a, b, c := v[..3], v[3..6], v[6..];
      calc {
        RemoveAll(PhoneLayout(v), drop);
        RemoveAll(a + " " + b + " " + c, drop);
      == { DropSpace(a + " " + b, c, drop); }
        RemoveAll(a + " " + b, drop) + RemoveAll(c, drop);
      == { DropSpace(a, b, drop); }
        RemoveAll(a, drop) + RemoveAll(b, drop) + RemoveAll(c, drop);
      == { assert AllDigits(a) && AllDigits(b) && AllDigits(c); }
        a + b + c;
      }
      assert a + b + c == v;
    } else if |v| == 6 {
      DropSpace(v[..3], v[3..], drop);
      assert v[..3] + v[3..] == v;
    }
  }

  /** Spaces are not digits, so digits survive the layout and nothing else is added. */
  lemma PhoneLayoutDigits(v: string)
    requires AllDigits(v) && |v| <= 9
    ensures DigitsOf(PhoneLayout(v)) == v
    ensures StripWhitespace(PhoneLayout(v)) == v
  {
    PhoneLayoutRemove(v, NotDigit);
    PhoneLayoutRemove(v, IsWhitespace);
  }

  /**
   * Removing the spaces from the formatted phone gives back exactly the first
   * min(9, number of digits) digits of the input, in order.
   */
  lemma PhoneInputKeepsDigits(input: string)
    ensures StripWhitespace(FormatPhoneNumberInput(input)) == CappedDigits(input)
    ensures var d := DigitsOf(input);
      CappedDigits(input) == d[..if |d| < 9 then |d| else 9]
  {
    PhoneInputLayout(input);
    PhoneLayoutDigits(CappedDigits(input));
  }

  /** The field shows a space exactly when it holds six or nine digits. */
  lemma PhoneInputSpacing(input: string)
    ensures var v := CappedDigits(input);
      ' ' in FormatPhoneNumberInput(input) <==> |v| == 6 || |v| == 9
  {
    PhoneInputLayout(input);
    var v := CappedDigits(input);
    if |v| == 9 {
      assert PhoneLayout(v)[3] == ' ';
    } else if |v| == 6 {
      assert PhoneLayout(v)[3] == ' ';
    } else {
      assert forall i :: 0 <= i < |v| ==> IsDigit(v[i]);
    }
  }

  /** Formatting an already formatted phone field changes nothing. */
  lemma PhoneInputIdempotent(input: string)
    ensures FormatPhoneNumberInput(FormatPhoneNumberInput(input)) == FormatPhoneNumberInput(input)
  {
    var v := CappedDigits(input);
    PhoneInputLayout(input);
    PhoneLayoutDigits(v);
    assert CappedDigits(FormatPhoneNumberInput(input)) == v;
    PhoneInputLayout(FormatPhoneNumberInput(input));
  }

  // ===========================================================================
  // IBANs
  // ===========================================================================

  /** The characters `.` does not match: the ECMAScript LineTerminators. */
  predicate IsLineTerminator(c: char) {
    c == '\n' || c == '\r' || c == '\U{2028}' || c == '\U{2029}'
  }

  predicate NoLineTerminator(s: string) {
    forall i :: 0 <= i < |s| ==> !IsLineTerminator(s[i])
  }

  /** `s.replace(/(.{4})/g, '$1 ')`: a space after every run of four matched characters. */
  function SpaceEveryFour(s: string): string {
    if |s| >= 4 && NoLineTerminator(s[..4]) then s[..4] + " " + SpaceEveryFour(s[4..])
    else if |s| == 0 then ""
    else [s[0]] + SpaceEveryFour(s[1..])
  }

  /** `formatIBAN`: groups of four separated by spaces, trimmed. */
  function FormatIban(iban: string): string {
    Trim(SpaceEveryFour(iban))
  }

  /**
   * The compact value of the IBAN field: whitespace removed, upper-cased, the
   * first two characters kept and only digits after them, cut to 25 characters.
   */
  function IbanCompact(input: string): (r: string)
    ensures |r| <= 25
    ensures NoWhitespace(r)
    ensures forall i :: 0 <= i < |r| ==> !('a' <= r[i] <= 'z')
    ensures forall i :: 2 <= i < |r| ==> IsDigit(r[i])
  {
    var v := Upper(StripWhitespace(input));
    var w := if |v| > 2 then v[..2] + DigitsOf(v[2..]) else v;
    if |w| > 25 then w[..25] else w
  }

  /**
   * What the compact value holds: the first two non-whitespace characters of
   * the input, upper-cased, then the digits that follow them in order, 23 at
   * most; an input with two or fewer non-whitespace characters is only
   * upper-cased.
   */
  lemma IbanCompactContents(input: string)
    ensures var u, r := StripWhitespace(input), IbanCompact(input);
      |u| <= 2 ==> r == Upper(u)
    ensures var u, r := StripWhitespace(input), IbanCompact(input);
      |u| > 2 ==> var d := DigitsOf(u[2..]);
        && |r| == 2 + (if |d| < 23 then |d| else 23)
        && r[..2] == Upper(u[..2])
        && r[2..] == d[..|r| - 2]
  {
    var u := StripWhitespace(input);
    var v := Upper(u);
    if |u| > 2 {
      assert v[2..] == Upper(u[2..]);
      assert v[..2] == Upper(u[..2]);
      DigitsOfUpper(u[2..]);
    }
  }

  /** `formatIBANInput`: the value the IBAN field is rewritten to on every keystroke. */
  function FormatIbanInput(input: string): string {
    FormatIban(IbanCompact(input))
  }

  /** The groups of four of a compact value; the last group holds the remaining one to four characters. */
  function Chunks4(c: string): (parts: seq<string>)
    ensures |parts| >= 1
    ensures forall k :: 0 <= k < |parts| - 1 ==> |parts[k]| == 4
    ensures |c| > 0 ==> 1 <= |parts[|parts| - 1]| <= 4
    ensures |c| == 0 ==> parts == [""]
  {
    if |c| <= 4 then [c] else [c[..4]] + Chunks4(c[4..])
  }

  function Concat(parts: seq<string>): string {
    if |parts| == 0 then "" else parts[0] + Concat(parts[1..])
  }

  lemma {:induction false} ChunksConcat(c: string)
    ensures Concat(Chunks4(c)) == c
  {
    if |c| > 4 {
      ChunksConcat(c[4..]);
      assert c == c[..4] + c[4..];
    }
  }

  lemma {:induction false} SpaceEveryFourShort(c: string)
    requires |c| < 4
    ensures SpaceEveryFour(c) == c
  {
    if |c| > 0 {
      SpaceEveryFourShort(c[1..]);
      assert c == [c[0]] + c[1..];
    }
  }

  /** Before trimming, the regular expression leaves one space too many when the length is a multiple of four. */
  lemma {:induction false} SpaceEveryFourJoin(c: string)
    requires NoWhitespace(c) && |c| > 0
    ensures SpaceEveryFour(c) == Join(Chunks4(c), ' ') + (if |c| % 4 == 0 then " " else "")
  {
    if |c| < 4 {
      SpaceEveryFourShort(c);
    } else if |c| == 4 {
      SpaceEveryFourOfFour(c);
    } else {
      var rest := c[4..];
      SpaceEveryFourStep(c);
      SpaceEveryFourJoin(rest);
      SpaceEveryFourLong(c);
    }
  }

  lemma SpaceEveryFourOfFour(c: string)
    requires NoWhitespace(c) && |c| == 4
    ensures SpaceEveryFour(c) == Join(Chunks4(c), ' ') + " "
  {
    SpaceEveryFourStep(c);
    assert c[..4] == c;
    assert SpaceEveryFour(c[4..]) == "";
  }

  /** The step of `SpaceEveryFourJoin` past the first group, given the claim for the rest. */
  lemma SpaceEveryFourLong(c: string)
    requires NoWhitespace(c) && |c| > 4
    requires var rest := c[4..];
      SpaceEveryFour(rest) == Join(Chunks4(rest), ' ') + (if |rest| % 4 == 0 then " " else "")
    ensures SpaceEveryFour(c) == Join(Chunks4(c), ' ') + (if |c| % 4 == 0 then " " else "")
  {
    var head, rest := c[..4], c[4..];
    var tail := if |c| % 4 == 0 then " " else "";
    var j := Join(Chunks4(rest), ' ');
    calc {
      SpaceEveryFour(c);
    == { SpaceEveryFourStep(c); }
      head + " " + SpaceEveryFour(rest);
    == { ModFourShift(|rest|); }
      head + " " + (j + tail);
    ==
      (head + " " + j) + tail;
    == { ChunksJoinStep(c); }
      Join(Chunks4(c), ' ') + tail;
    }
  }

  lemma ModFourShift(n: nat)
    ensures (n + 4) % 4 == n % 4
  {
  }

  /** A whitespace-free value of four or more characters: its first four get a space after them. */
  lemma SpaceEveryFourStep(c: string)
    requires NoWhitespace(c) && |c| >= 4
    ensures SpaceEveryFour(c) == c[..4] + " " + SpaceEveryFour(c[4..])
    ensures NoWhitespace(c[4..])
  {
    var head, rest := c[..4], c[4..];
    assert NoLineTerminator(head) by {
      forall i | 0 <= i < 4 ensures !IsLineTerminator(head[i]) {
        assert head[i] == c[i];
      }
    }
    forall i | 0 <= i < |rest| ensures !IsWhitespace(rest[i]) {
      assert rest[i] == c[i + 4];
    }
  }

  /** Joining the groups of a value longer than four puts its first group and a space in front. */
  lemma ChunksJoinStep(c: string)
    requires |c| > 4
    ensures Join(Chunks4(c), ' ') == c[..4] + " " + Join(Chunks4(c[4..]), ' ')
  {
    var parts := Chunks4(c);
    assert parts == [c[..4]] + Chunks4(c[4..]);
    assert parts[1..] == Chunks4(c[4..]);
  }

  lemma {:induction false} JoinEnds(parts: seq<string>)
    requires |parts| >= 1
    requires forall k :: 0 <= k < |parts| ==> |parts[k]| > 0 && NoWhitespace(parts[k])
    ensures var j := Join(parts, ' ');
      |j| > 0 && !IsWhitespace(j[0]) && !IsWhitespace(j[|j| - 1])
  {
    if |parts| > 1 {
      JoinEnds(parts[1..]);
    }
  }

  lemma {:induction false} JoinStrip(parts: seq<string>)
    requires |parts| >= 1
    requires forall k :: 0 <= k < |parts| ==> NoWhitespace(parts[k])
    ensures StripWhitespace(Join(parts, ' ')) == Concat(parts)
  {
    if |parts| > 1 {
      var head, rest := parts[0], parts[1..];
      calc {
        StripWhitespace(Join(parts, ' '));
        RemoveAll(head + [' '] + Join(rest, ' '), IsWhitespace);
      == { DropSpace(head, Join(rest, ' '), IsWhitespace); }
        RemoveAll(head, IsWhitespace) + RemoveAll(Join(rest, ' '), IsWhitespace);
      == { assert NoWhitespace(head); JoinStrip(rest); }
        head + Concat(rest);
      }
    } else {
      assert Concat(parts) == parts[0] + Concat([]);
    }
  }

  lemma ChunksAreNonEmptyAndClean(c: string)
    requires NoWhitespace(c) && |c| > 0
    ensures forall k :: 0 <= k < |Chunks4(c)| ==> |Chunks4(c)[k]| > 0 && NoWhitespace(Chunks4(c)[k])
  {
    ChunksConcat(c);
    var parts := Chunks4(c);
    forall k | 0 <= k < |parts| ensures NoWhitespace(parts[k]) {
      ChunkInside(c, k);
    }
  }

  lemma {:induction false} ChunkInside(c: string, k: nat)
    requires NoWhitespace(c) && k < |Chunks4(c)|
    ensures NoWhitespace(Chunks4(c)[k])
  {
    if |c| > 4 && k > 0 {
      ChunkInside(c[4..], k - 1);
    }
  }

  /** Trimming removes the extra trailing space and nothing else. */
  lemma TrimDropsTrailingSpace(x: string)
    requires |x| > 0 && !IsWhitespace(x[0]) && !IsWhitespace(x[|x| - 1])
    ensures Trim(x + " ") == x
  {
    assert TrimStart(x + " ") == x + " ";
    assert (x + " ")[..|x|] == x;
    assert TrimEnd(x + " ") == TrimEnd(x);
  }

  /**
   * `formatIBAN` of a whitespace-free value: its groups of four joined by
   * single spaces, last group one to four characters, no space at either end;
   * removing the spaces recovers the value.
   */
  lemma FormatIbanGroups(c: string)
    requires NoWhitespace(c)
    ensures FormatIban(c) == Join(Chunks4(c), ' ')
    ensures StripWhitespace(FormatIban(c)) == c
    ensures |c| > 0 ==> var f := FormatIban(c); f[0] != ' ' && f[|f| - 1] != ' '
  {
    FormatIbanIsJoin(c);
    ChunksConcat(c);
    if |c| > 0 {
      ChunksAreNonEmptyAndClean(c);
      JoinEnds(Chunks4(c));
      JoinStrip(Chunks4(c));
    }
  }

  lemma FormatIbanIsJoin(c: string)
    requires NoWhitespace(c)
    ensures FormatIban(c) == Join(Chunks4(c), ' ')
  {
    ChunksConcat(c);
    if |c| == 0 {
      assert SpaceEveryFour(c) == "";
    } else {
      SpaceEveryFourJoin(c);
      ChunksAreNonEmptyAndClean(c);
      JoinEnds(Chunks4(c));
      if |c| % 4 == 0 {
        TrimDropsTrailingSpace(Join(Chunks4(c), ' '));
      }
    }
  }

  /** The IBAN field shows the compact value grouped by four, and removing its spaces gives that value back. */
  lemma IbanInputGroups(input: string)
    ensures FormatIbanInput(input) == Join(Chunks4(IbanCompact(input)), ' ')
    ensures StripWhitespace(FormatIbanInput(input)) == IbanCompact(input)
  {
    FormatIbanGroups(IbanCompact(input));
  }

  // ===========================================================================
  // Validation of the "add account" form
  // ===========================================================================

  /** An anchored regular expression made of single-character classes (`^9[1236]\d{7}$`). */
  predicate MatchesClasses(s: string, classes: seq<char -> bool>) {
    |s| == |classes| && forall i :: 0 <= i < |s| ==> classes[i](s[i])
  }

  function Repeat(cls: char -> bool, n: nat): (r: seq<char -> bool>)
    ensures |r| == n && forall i :: 0 <= i < n ==> r[i] == cls
  {
    if n == 0 then [] else [cls] + Repeat(cls, n - 1)
  }

  /** `/^9[1236]\d{7}$/`. */
  function MobilePattern(): seq<char -> bool> {
    [c => c == '9', c => c == '1' || c == '2' || c == '3' || c == '6'] + Repeat(IsDigit, 7)
  }

  /** `/^PT50\d{21}$/`. */
  function IbanPattern(): seq<char -> bool> {
    [c => c == 'P', c => c == 'T', c => c == '5', c => c == '0'] + Repeat(IsDigit, 21)
  }

  /** `validateAccountForm`: type 'mbway' checks the phone field, every other type the IBAN field. */
  function ValidateAccountForm(kind: string, phoneField: string, ibanField: string): bool {
    if kind == "mbway" then
      var phone := StripWhitespace(phoneField);
      !(|phone| != 9 || !MatchesClasses(phone, MobilePattern()))
    else
      var iban := StripWhitespace(ibanField);
      !(|iban| != 25 || !MatchesClasses(iban, IbanPattern()))
  }

  /** A Portuguese mobile number: nine digits starting 91, 92, 93 or 96. */
  predicate IsMobileNumber(p: string) {
    |p| == 9 && p[0] == '9' && p[1] in "1236" && AllDigits(p[2..])
  }

  /** The fixed prefix `PT50` (no check-digit computation) followed by 21 digits. */
  predicate IsPortugueseIban(p: string) {
    |p| == 25 && p[..4] == "PT50" && AllDigits(p[4..])
  }

  /** The form accepts a phone exactly when, without whitespace, it is a Portuguese mobile number. */
  lemma ValidateMbwayIff(phoneField: string, ibanField: string)
    ensures ValidateAccountForm("mbway", phoneField, ibanField) <==> IsMobileNumber(StripWhitespace(phoneField))
  {
    var p := StripWhitespace(phoneField);
    var pat := MobilePattern();
    if IsMobileNumber(p) {
      forall i | 0 <= i < 9 ensures pat[i](p[i]) {
        if i >= 2 {
          assert p[i] == p[2..][i - 2];
        }
      }
    }
    if |p| == 9 && MatchesClasses(p, pat) {
      assert pat[0](p[0]) && pat[1](p[1]);
      forall i | 0 <= i < 7 ensures IsDigit(p[2..][i]) {
        assert pat[i + 2](p[i + 2]);
      }
    }
  }

  /** Any type but 'mbway' accepts exactly `PT50` followed by 21 digits once whitespace is removed. */
  lemma ValidateIbanIff(kind: string, phoneField: string, ibanField: string)
    requires kind != "mbway"
    ensures ValidateAccountForm(kind, phoneField, ibanField) <==> IsPortugueseIban(StripWhitespace(ibanField))
  {
    var p := StripWhitespace(ibanField);
    var pat := IbanPattern();
    if IsPortugueseIban(p) {
      forall i | 0 <= i < 25 ensures pat[i](p[i]) {
        if i >= 4 {
          assert p[i] == p[4..][i - 4];
        } else {
          assert p[i] == p[..4][i];
        }
      }
    }
    if |p| == 25 && MatchesClasses(p, pat) {
      assert pat[0](p[0]) && pat[1](p[1]) && pat[2](p[2]) && pat[3](p[3]);
      assert p[..4] == [p[0], p[1], p[2], p[3]];
      forall i | 0 <= i < 21 ensures IsDigit(p[4..][i]) {
        assert pat[i + 4](p[i + 4]);
      }
    }
  }

  /** When everything but whitespace is a digit, dropping non-digits is dropping whitespace. */
  lemma {:induction false} DigitsOfIsStrip(s: string)
    requires AllDigits(StripWhitespace(s))
    ensures DigitsOf(s) == StripWhitespace(s)
  {
    if |s| > 0 {
      if IsWhitespace(s[0]) {
        assert StripWhitespace(s) == StripWhitespace(s[1..]);
        assert NotDigit(s[0]);
      } else {
        assert StripWhitespace(s) == [s[0]] + StripWhitespace(s[1..]);
        assert IsDigit(StripWhitespace(s)[0]);
        assert StripWhitespace(s[1..]) == StripWhitespace(s)[1..];
      }
      DigitsOfIsStrip(s[1..]);
    }
  }

  /** A valid phone, formatted by the phone field, still has the same digits and still validates. */
  lemma FormattedMobileValidates(phoneField: string, ibanField: string)
    requires ValidateAccountForm("mbway", phoneField, ibanField)
    ensures StripWhitespace(FormatPhoneNumberInput(phoneField)) == StripWhitespace(phoneField)
    ensures ValidateAccountForm("mbway", FormatPhoneNumberInput(phoneField), ibanField)
  {
    ValidateMbwayIff(phoneField, ibanField);
    var p := StripWhitespace(phoneField);
    assert AllDigits(p) by {
      assert forall i :: 2 <= i < 9 ==> p[i] == p[2..][i - 2];
    }
    DigitsOfIsStrip(phoneField);
    PhoneInputKeepsDigits(phoneField);
    ValidateMbwayIff(FormatPhoneNumberInput(phoneField), ibanField);
  }

  /** A valid IBAN, formatted by the IBAN field, keeps its compact value and still validates. */
  lemma FormattedIbanValidates(kind: string, phoneField: string, ibanField: string)
    requires kind != "mbway"
    requires ValidateAccountForm(kind, phoneField, ibanField)
    ensures IbanCompact(ibanField) == StripWhitespace(ibanField)
    ensures StripWhitespace(FormatIbanInput(ibanField)) == StripWhitespace(ibanField)
    ensures ValidateAccountForm(kind, phoneField, FormatIbanInput(ibanField))
  {
    ValidateIbanIff(kind, phoneField, ibanField);
    CompactOfValidIban(ibanField);
    IbanInputGroups(ibanField);
    ValidateIbanIff(kind, phoneField, FormatIbanInput(ibanField));
  }

  /** The IBAN field leaves a valid IBAN, once its whitespace is gone, as it is. */
  lemma CompactOfValidIban(ibanField: string)
    requires IsPortugueseIban(StripWhitespace(ibanField))
    ensures IbanCompact(ibanField) == StripWhitespace(ibanField)
  {
    var p := StripWhitespace(ibanField);
    assert p[0] == 'P' && p[1] == 'T' && p[2] == '5' && p[3] == '0' by {
      assert p[..4] == "PT50";
    }
    var v := Upper(p);
    assert v == p;
    assert AllDigits(p[2..]) by {
      assert forall i :: 4 <= i < 25 ==> p[i] == p[4..][i - 4];
    }
    assert p[..2] + p[2..] == p;
  }

  // ===========================================================================
  // The account added to the drop-down
  // ===========================================================================

  datatype AccountData =
    | MbwayAccount(phoneNumber: string, accountName: string, displayName: string)
    | IbanAccount(iban: string, accountName: string, bankName: string, displayName: string)

  /** The fields of the "add account" form as typed. */
  datatype AccountForm = AccountForm(
    kind: string,
    phoneNumber: string, accountNameMbway: string,
    ibanNumber: string, accountNameIban: string, bankName: string)

  /** `saveAccount`: nothing when validation fails, otherwise the account record it builds. */
  function SaveAccount(form: AccountForm): (r: Option<AccountData>)
    ensures r.Some? <==> ValidateAccountForm(form.kind, form.phoneNumber, form.ibanNumber)
    ensures r.Some? ==> (r.value.MbwayAccount? <==> form.kind == "mbway")
  {
    if !ValidateAccountForm(form.kind, form.phoneNumber, form.ibanNumber) then None
    else if form.kind == "mbway" then
      var phone := StripWhitespace(form.phoneNumber);
      var name := if form.accountNameMbway != "" then form.accountNameMbway else "MBWAY " + phone;
      Some(MbwayAccount(phone, name, "\U{1F4F1} MBWAY \U{00B7} " + FormatPhoneNumber(phone)))
    else
      var iban := StripWhitespace(form.ibanNumber);
      var name := if form.accountNameIban != "" then form.accountNameIban else "Conta Banc\U{00E1}ria";
      var bank := form.bankName;
      Some(IbanAccount(iban, name, bank,
        "\U{1F3E6} " + (if bank != "" then bank else "Banco") + " \U{00B7} " + FormatIban(iban)))
  }

  /** `addAccountToDropdown`: the value of the new option. */
  function OptionValue(a: AccountData): string {
    match a
    case MbwayAccount(phone, _, _) => "mbway_" + phone
    case IbanAccount(iban, _, _, _) => "iban_" + iban
  }

  /**
   * A saved account's option value is its type prefix followed by the
   * validated number without whitespace, and its label shows that number
   * grouped (3-3-3 for a phone, by four for an IBAN).
   */
  lemma SavedAccountOption(form: AccountForm)
    requires ValidateAccountForm(form.kind, form.phoneNumber, form.ibanNumber)
    ensures var a := SaveAccount(form).value;
      if form.kind == "mbway" then
        var p := StripWhitespace(form.phoneNumber);
        && OptionValue(a) == "mbway_" + p
        && IsMobileNumber(p)
        && a.displayName == "\U{1F4F1} MBWAY \U{00B7} " + p[..3] + " " + p[3..6] + " " + p[6..]
      else
        var p := StripWhitespace(form.ibanNumber);
        && OptionValue(a) == "iban_" + p
        && IsPortugueseIban(p)
        && a.displayName == "\U{1F3E6} " + (if form.bankName != "" then form.bankName else "Banco")
             + " \U{00B7} " + Join(Chunks4(p), ' ')
  {
    if form.kind == "mbway" {
      SavedMbwayOption(form);
    } else {
      SavedIbanOption(form);
    }
  }

  lemma SavedMbwayOption(form: AccountForm)
    requires form.kind == "mbway" && ValidateAccountForm(form.kind, form.phoneNumber, form.ibanNumber)
    ensures var a := SaveAccount(form).value;
      var p := StripWhitespace(form.phoneNumber);
      && OptionValue(a) == "mbway_" + p
      && IsMobileNumber(p)
      && a.displayName == "\U{1F4F1} MBWAY \U{00B7} " + p[..3] + " " + p[3..6] + " " + p[6..]
  {
    var p := StripWhitespace(form.phoneNumber);
    assert IsMobileNumber(p) by {
      ValidateMbwayIff(form.phoneNumber, form.ibanNumber);
    }
    SavedMbwayRecord(form);
    MobileDisplay(p);
  }

  /** The record an MB WAY form saves: the phone without whitespace, shown through `formatPhoneNumber`. */
  lemma SavedMbwayRecord(form: AccountForm)
    requires form.kind == "mbway" && ValidateAccountForm(form.kind, form.phoneNumber, form.ibanNumber)
    ensures var a := SaveAccount(form).value;
      && a.MbwayAccount?
      && a.phoneNumber == StripWhitespace(form.phoneNumber)
      && a.displayName == "\U{1F4F1} MBWAY \U{00B7} " + FormatPhoneNumber(StripWhitespace(form.phoneNumber))
  {
  }

  /** `formatPhoneNumber` of a valid mobile number spaces it 3-3-3. */
  lemma MobileDisplay(p: string)
    requires IsMobileNumber(p)
    ensures FormatPhoneNumber(p) == p[..3] + " " + p[3..6] + " " + p[6..]
  {
    assert AllDigits(p) by {
      assert forall i :: 2 <= i < 9 ==> p[i] == p[2..][i - 2];
    }
    RunAtStart(p, 3);
    GroupsOfNine(p);
  }

  lemma SavedIbanOption(form: AccountForm)
    requires form.kind != "mbway" && ValidateAccountForm(form.kind, form.phoneNumber, form.ibanNumber)
    ensures var a := SaveAccount(form).value;
      var p := StripWhitespace(form.ibanNumber);
      && OptionValue(a) == "iban_" + p
      && IsPortugueseIban(p)
      && a.displayName == "\U{1F3E6} " + (if form.bankName != "" then form.bankName else "Banco")
           + " \U{00B7} " + Join(Chunks4(p), ' ')
  {
    ValidateIbanIff(form.kind, form.phoneNumber, form.ibanNumber);
    FormatIbanGroups(StripWhitespace(form.ibanNumber));
  }

  // ===========================================================================
  // The withdrawal form and the quick-amount buttons
  // ===========================================================================

  /** The minimum withdrawal, in cents (€10). */
  const MinimumWithdrawal: int := 1000

  datatype SubmitOutcome =
    | BelowMinimum           // 'O valor mínimo para levantamento é €10'
    | NoAccountSelected      // 'Por favor, selecione uma conta bancária'
    | Submitted(amount: int, account: string)

  /**
   * The submit handler's guard. `amount` is `parseFloat` of the field in cents
   * (None for NaN); `account` the selected option's value. The amount is
   * checked first, then the selection; the balance plays no part.
   */
  function SubmitGuard(amount: Option<int>, account: string): (r: SubmitOutcome)
    ensures r == BelowMinimum <==> amount.None? || amount.value < MinimumWithdrawal
    ensures r == NoAccountSelected <==> amount.Some? && amount.value >= MinimumWithdrawal && account == ""
    ensures r.Submitted? ==> r.amount >= MinimumWithdrawal && r.account != ""
    ensures r.Submitted? ==> amount == Some(r.amount) && account == r.account
  {
    if amount.None? || amount.value == 0 || amount.value < MinimumWithdrawal then BelowMinimum
    else if account == "" then NoAccountSelected
    else Submitted(amount.value, account)
  }

  /** `button.disabled = buttonAmount > user.balance`; a NaN amount compares false. */
  function QuickAmountDisabled(buttonAmount: Option<int>, balance: int): (disabled: bool)
    ensures disabled <==> buttonAmount.Some? && buttonAmount.value > balance
  {
    match buttonAmount
    case None => false
    case Some(a) => a > balance
  }

  /**
   * What `updateAllBalanceValues` leaves on the quick-amount buttons. Without
   * a loaded user the first `user.balance` throws a TypeError before any
   * button changes; the `catch` then shows `€---` on every balance label and
   * the buttons stay as they were (`Unavailable`).
   */
  datatype QuickAmounts = Buttons(disabled: seq<bool>) | Unavailable

  /** The buttons' states, one per button in page order, given the amounts they carry. */
  function UpdateQuickAmounts(user: Option<User>, buttonAmounts: seq<Option<int>>): (u: QuickAmounts)
    ensures u.Unavailable? <==> user.None? && |buttonAmounts| > 0
    ensures u.Buttons? ==> |u.disabled| == |buttonAmounts|
    ensures u.Buttons? && user.Some? ==> forall i :: 0 <= i < |buttonAmounts| ==>
      (u.disabled[i] <==> buttonAmounts[i].Some? && buttonAmounts[i].value > user.value.balance)
  {
    match user
    case None => if |buttonAmounts| > 0 then Unavailable else Buttons([])
    case Some(loaded) =>
      Buttons(seq(|buttonAmounts|, i requires 0 <= i < |buttonAmounts| => QuickAmountDisabled(buttonAmounts[i], loaded.balance)))
  }

  /**
   * The guard never compares with the balance: an amount whose quick button is
   * disabled because it exceeds the balance is still submitted when typed.
   */
  lemma SubmitIgnoresBalance(amount: int, balance: int, account: string)
    requires QuickAmountDisabled(Some(amount), balance)
    requires amount >= MinimumWithdrawal && account != ""
    ensures SubmitGuard(Some(amount), account) == Submitted(amount, account)
  {
  }

  // ===========================================================================
  // Withdrawal history
  // ===========================================================================

  /** The sort key of `(a, b) => new Date(b.created_at) - new Date(a.created_at)`: newest first. */
  function NewestFirst(w: Withdrawal): int {
    -Rank(w.createdAt)
  }

  /**
   * `getlast3`: the withdrawals sorted newest first, cut to three. No
   * withdrawal left out is newer than one kept.
   */
  function Last3(ws: seq<Withdrawal>): (r: seq<Withdrawal>)
    ensures |r| == if |ws| < 3 then |ws| else 3
    ensures forall i, j :: 0 <= i < j < |r| ==> Rank(r[i].createdAt) >= Rank(r[j].createdAt)
    ensures multiset(r) <= multiset(ws)
    ensures forall w, i :: w in multiset(ws) - multiset(r) && 0 <= i < |r| ==>
      Rank(w.createdAt) <= Rank(r[i].createdAt)
  {
    var sorted := SortBy(ws, NewestFirst);
    var k := if |ws| < 3 then |ws| else 3;
    NewestPrefix(sorted, k);
    sorted[..k]
  }

  lemma NewestPrefix(sorted: seq<Withdrawal>, k: nat)
    requires SortedBy(sorted, NewestFirst) && k <= |sorted|
    ensures forall i, j :: 0 <= i < j < k ==> Rank(sorted[..k][i].createdAt) >= Rank(sorted[..k][j].createdAt)
    ensures multiset(sorted[..k]) <= multiset(sorted)
    ensures forall w, i :: w in multiset(sorted) - multiset(sorted[..k]) && 0 <= i < k ==>
      Rank(w.createdAt) <= Rank(sorted[..k][i].createdAt)
  {
    PrefixOfSorted(sorted, NewestFirst, k);
    assert sorted == sorted[..k] + sorted[k..];
    forall i, j | 0 <= i < j < k
      ensures Rank(sorted[..k][i].createdAt) >= Rank(sorted[..k][j].createdAt)
    {
      assert NewestFirst(sorted[i]) <= NewestFirst(sorted[j]);
    }
    forall w, i | w in multiset(sorted) - multiset(sorted[..k]) && 0 <= i < k
      ensures Rank(w.createdAt) <= Rank(sorted[..k][i].createdAt)
    {
      assert NewestFirst(sorted[i]) <= NewestFirst(w);
    }
  }

  datatype HistoryBadge = HistoryBadge(cssClass: string, text: string, icon: string)

  /** The status badge of a history line: 'Concluído' only for COMPLETED, 'Processando' for everything else. */
  function HistoryStatus(status: string): (b: HistoryBadge)
    ensures b.cssClass == Lower(status)
    ensures b.text == "Conclu\U{00ED}do" <==> status == "COMPLETED"
    ensures b.text == "Processando" <==> status != "COMPLETED"
    ensures b.icon == "fas fa-check-circle" <==> status == "COMPLETED"
  {
    if status == "COMPLETED" then HistoryBadge(Lower(status), "Conclu\U{00ED}do", "fas fa-check-circle")
    else HistoryBadge(Lower(status), "Processando", "fas fa-clock")
  }
}
