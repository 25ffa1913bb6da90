/**
 * The string primitives the source relies on, with JavaScript's meaning:
 * `String.prototype.split` on one character, `trim`, `padStart(2, "0")`,
 * `Number` on a string of decimal digits and `String` on an integer.
 */
module Text {

  predicate IsDigit(c: char) {
    '0' <= c <= '9'
  }

  predicate AllDigits(s: string) {
    forall i :: 0 <= i < |s| ==> IsDigit(s[i])
  }

  function DigitValue(c: char): (v: nat)
    requires IsDigit(c)
    ensures v < 10
  {
    (c as int) - ('0' as int)
  }

  function DigitChar(v: nat): (c: char)
    requires v < 10
    ensures IsDigit(c) && DigitValue(c) == v
  {
    ('0' as int + v) as char
  }

  /** `Number(s)` for a non-empty string of decimal digits. */
  function DigitsToNat(s: string): nat
    requires AllDigits(s)
  {
    if s == [] then 0 else DigitsToNat(s[..|s| - 1]) * 10 + DigitValue(s[|s| - 1])
  }

  /** `String(n)` for a non-negative integer: decimal, no leading zero. */
  function NatToString(n: nat): (s: string)
    ensures |s| >= 1 && AllDigits(s)
    ensures |s| > 1 ==> s[0] != '0'
  {
    if n < 10 then [DigitChar(n)] else NatToString(n / 10) + [DigitChar(n % 10)]
  }

  /** `String(n)` for any integer. */
  function IntToString(n: int): string {
    if n < 0 then "-" + NatToString(-n) else NatToString(n)
  }

  /** `s.padStart(2, "0")`. */
  function PadStart2(s: string): (r: string)
    ensures |r| == if |s| >= 2 then |s| else 2
    ensures r[|r| - |s|..] == s
    ensures forall i :: 0 <= i < |r| - |s| ==> r[i] == '0'
  {
    if |s| >= 2 then s else seq(2 - |s|, _ => '0') + s
  }

  lemma {:induction false} DigitsOfNatToString(n: nat)
    ensures DigitsToNat(NatToString(n)) == n
  {
    var s := NatToString(n);
    if n >= 10 {
      DigitsOfNatToString(n / 10);
      assert s[..|s| - 1] == NatToString(n / 10);
    }
  }

  lemma {:induction false} DigitsToNatBound(s: string)
    requires AllDigits(s)
    ensures DigitsToNat(s) < Pow10(|s|)
  {
    if s != [] {
      DigitsToNatBound(s[..|s| - 1]);
    }
  }

  lemma {:induction false} DigitsToNatLowerBound(s: string)
    requires AllDigits(s) && |s| >= 1 && s[0] != '0'
    ensures DigitsToNat(s) >= Pow10(|s| - 1)
  {
    if |s| > 1 {
      DigitsToNatLowerBound(s[..|s| - 1]);
    }
  }

  /** A leading zero does not change the value of a digit string. */
  lemma {:induction false} LeadingZeroDigits(s: string)
    requires AllDigits(s)
    ensures AllDigits(['0'] + s) && DigitsToNat(['0'] + s) == DigitsToNat(s)
  {
    var z := ['0'] + s;
    if s == [] {
      assert z[..0] == [];
    } else {
      LeadingZeroDigits(s[..|s| - 1]);
      assert z[..|z| - 1] == ['0'] + s[..|s| - 1];
    }
  }

  /** The same for the two zeros of a year written `00YY`. */
  lemma TwoLeadingZerosDigits(s: string)
    requires AllDigits(s)
    ensures AllDigits("00" + s) && DigitsToNat("00" + s) == DigitsToNat(s)
  {
    LeadingZeroDigits(s);
    LeadingZeroDigits(['0'] + s);
    assert "00" + s == ['0'] + (['0'] + s);
  }

  function Pow10(n: nat): (p: nat)
    ensures p >= 1
  {
    if n == 0 then 1 else 10 * Pow10(n - 1)
  }

  /** A decimal string without a leading zero is what `String` prints for its value. */
  lemma {:induction false} NatToStringOfDigits(s: string)
    requires AllDigits(s) && |s| >= 1 && (|s| == 1 || s[0] != '0')
    ensures NatToString(DigitsToNat(s)) == s
  {
    var n := DigitsToNat(s);
    if |s| == 1 {
      assert s[..0] == [];
      assert DigitsToNat(s[..0]) == 0;
      assert n == DigitValue(s[0]);
    } else {
      var init := s[..|s| - 1];
      assert init[0] == s[0];
      DigitsToNatLowerBound(s);
      assert n >= 10 by {
        assert Pow10(|s| - 1) >= 10 by { Pow10AtLeastTen(|s| - 1); }
      }
      assert n / 10 == DigitsToNat(init) && n % 10 == DigitValue(s[|s| - 1]);
      NatToStringOfDigits(init);
      assert s == init + [s[|s| - 1]];
    }
  }

  lemma {:induction false} Pow10AtLeastTen(n: nat)
    requires n >= 1
    ensures Pow10(n) >= 10
  {
    if n > 1 {
      Pow10AtLeastTen(n - 1);
    }
  }

  /** Any two digits survive `Number`, `String` and `padStart(2, "0")`. */
  lemma TwoDigitsRoundTrip(s: string)
    requires AllDigits(s) && |s| == 2
    ensures PadStart2(IntToString(DigitsToNat(s))) == s
  {
    assert s[..1] == [s[0]] && [s[0]][..0] == [];
    assert DigitsToNat([s[0]]) == DigitValue(s[0]) by {
      assert DigitsToNat([s[0]][..0]) == 0;
    }
    var n := DigitsToNat(s);
    if s[0] == '0' {
      assert n == DigitValue(s[1]);
      assert IntToString(n) == [s[1]];
    } else {
      NatToStringOfDigits(s);
    }
  }

  /** Numbers below 100 printed with `String` and `padStart(2, "0")` read back. */
  lemma TwoDigitsOfNat(n: nat)
    requires n < 100
    ensures |PadStart2(IntToString(n))| == 2 && AllDigits(PadStart2(IntToString(n)))
    ensures DigitsToNat(PadStart2(IntToString(n))) == n
  {
    var p := PadStart2(IntToString(n));
    DigitsOfNatToString(n);
    if n < 10 {
      assert p == ['0', DigitChar(n)];
      assert p[..1] == ['0'] && ['0'][..0] == [];
    } else {
      assert p == NatToString(n);
    }
  }

  /** Numbers from 1000 to 9999 print as four digits that read back. */
  lemma FourDigitsOfNat(n: nat)
    requires 1000 <= n < 10000
    ensures |IntToString(n)| == 4 && AllDigits(IntToString(n)) && IntToString(n)[0] != '0'
    ensures DigitsToNat(IntToString(n)) == n
  {
    DigitsOfNatToString(n);
    var s := NatToString(n);
    assert s == NatToString(n / 10) + [DigitChar(n % 10)];
    assert NatToString(n / 10) == NatToString(n / 100) + [DigitChar((n / 10) % 10)];
    assert NatToString(n / 100) == NatToString(n / 1000) + [DigitChar((n / 100) % 10)];
  }

  /** Index of the first `c` in `s`, or `|s|` when there is none. */
  function IndexOf(s: string, c: char): (i: nat)
    ensures i <= |s|
    ensures i < |s| ==> s[i] == c
    ensures forall k :: 0 <= k < i ==> s[k] != c
  {
    if s == [] then 0 else if s[0] == c then 0 else 1 + IndexOf(s[1..], c)
  }

  /** `s.split(sep)` for a one-character separator. */
  function Split(s: string, sep: char): (parts: seq<string>)
    ensures |parts| >= 1
    decreases |s|
  {
    var i := IndexOf(s, sep);
    if i == |s| then [s] else [s[..i]] + Split(s[i + 1..], sep)
  }

  lemma SplitNoSeparator(s: string, sep: char)
    requires forall k :: 0 <= k < |s| ==> s[k] != sep
    ensures Split(s, sep) == [s]
  {
    assert IndexOf(s, sep) == |s|;
  }

  lemma SplitFirst(a: string, sep: char, b: string)
    requires forall k :: 0 <= k < |a| ==> a[k] != sep
    ensures Split(a + [sep] + b, sep) == [a] + Split(b, sep)
  {
    var s := a + [sep] + b;
    var i := IndexOf(s, sep);
    assert s[|a|] == sep;
    assert i == |a|;
    assert s[..i] == a && s[i + 1..] == b;
  }

  /** JavaScript white space and line terminators, as `trim` removes them. */
  predicate IsWhitespace(c: char) {
    || c == ' ' || c == '\t' || c == '\n' || c == '\r'
    || c == '\U{000B}' || c == '\U{000C}' || c == '\U{00A0}' || c == '\U{1680}'
    || ('\U{2000}' <= c <= '\U{200A}')
    || c == '\U{2028}' || c == '\U{2029}' || c == '\U{202F}' || c == '\U{205F}'
    || c == '\U{3000}' || c == '\U{FEFF}'
  }

  function TrimStart(s: string): (r: string)
    ensures |r| <= |s| && r == s[|s| - |r|..]
    ensures r != [] ==> !IsWhitespace(r[0])
    ensures forall k :: 0 <= k < |s| - |r| ==> IsWhitespace(s[k])
  {
    if s != [] && IsWhitespace(s[0]) then TrimStart(s[1..]) else s
  }

  function TrimEnd(s: string): (r: string)
    ensures |r| <= |s| && r == s[..|r|]
    ensures r != [] ==> !IsWhitespace(r[|r| - 1])
    ensures forall k :: |r| <= k < |s| ==> IsWhitespace(s[k])
  {
    if s != [] && IsWhitespace(s[|s| - 1]) then TrimEnd(s[..|s| - 1]) else s
  }

  /** `s.trim()`. */
  function Trim(s: string): string {
    TrimEnd(TrimStart(s))
  }

  /** The empty string is its own trim. */
  lemma TrimEmpty()
    ensures Trim("") == ""
  {
  }

  /** A string that neither starts nor ends with white space is its own trim. */
  lemma TrimNoWhitespaceEnds(s: string)
    requires s != [] ==> !IsWhitespace(s[0]) && !IsWhitespace(s[|s| - 1])
    ensures Trim(s) == s
  {
  }

  /** A string is blank after `trim` exactly when every character is white space. */
  lemma TrimEmptyIffBlank(s: string)
    ensures Trim(s) == [] <==> forall k :: 0 <= k < |s| ==> IsWhitespace(s[k])
  {
  }
}
