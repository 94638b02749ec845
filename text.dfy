/** String helpers standing in for the Python and SQL string operations the analytics code relies on. */
module Text {
  import opened Wrappers

  /** Lower-cases one character. Besides A-Z, the only character whose Python lower-case form
      is an ASCII letter is the Kelvin sign, which lower-cases to 'k'; every other character is
      kept, which is enough to decide whether `s.lower()` equals an ASCII word. */
  function LowerChar(c: char): char {
    if 'A' <= c <= 'Z' then (c as int + 32) as char
    else if c == '\U{212A}' then 'k'
    else c
  }

  /** `s.lower()`, character by character. */
  function Lower(s: string): (r: string)
    ensures |r| == |s|
    ensures forall i :: 0 <= i < |s| ==> r[i] == LowerChar(s[i])
  {
    if s == [] then [] else [LowerChar(s[0])] + Lower(s[1..])
  }

  /** Lower-casing twice is lower-casing once. */
  lemma LowerIdempotent(s: string)
    ensures Lower(Lower(s)) == Lower(s)
  {
    assert forall i :: 0 <= i < |s| ==> LowerChar(LowerChar(s[i])) == LowerChar(s[i]);
  }

  /** `needle` occurs in `hay` (SQL `LIKE '%needle%'`, Python `needle in hay`). */
  predicate IsSubstring(needle: string, hay: string)
    decreases |hay|
  {
    needle <= hay || (|hay| > 0 && IsSubstring(needle, hay[1..]))
  }

  /** `needle` sits in `hay` at offset `i`. */
  predicate OccursAt(needle: string, hay: string, i: int) {
    0 <= i && i + |needle| <= |hay| && hay[i..i + |needle|] == needle
  }

  lemma {:induction false} SubstringHasOffset(needle: string, hay: string)
    requires IsSubstring(needle, hay)
    ensures exists i :: OccursAt(needle, hay, i)
    decreases |hay|
  {
    if needle <= hay {
      assert OccursAt(needle, hay, 0);
    } else {
      SubstringHasOffset(needle, hay[1..]);
      var j :| OccursAt(needle, hay[1..], j);
      assert hay[j + 1..j + 1 + |needle|] == hay[1..][j..j + |needle|];
      assert OccursAt(needle, hay, j + 1);
    }
  }

  lemma {:induction false} OffsetIsSubstring(needle: string, hay: string, i: int)
    requires OccursAt(needle, hay, i)
    ensures IsSubstring(needle, hay)
    decreases i
  {
    if i == 0 {
      assert needle <= hay;
    } else {
      assert hay[1..][i - 1..i - 1 + |needle|] == hay[i..i + |needle|];
      OffsetIsSubstring(needle, hay[1..], i - 1);
    }
  }

  /** The recursive substring test agrees with "occurs at some offset". */
  lemma IsSubstringAt(needle: string, hay: string)
    ensures IsSubstring(needle, hay) <==> exists i :: OccursAt(needle, hay, i)
  {
    if IsSubstring(needle, hay) { SubstringHasOffset(needle, hay); }
    if exists i :: OccursAt(needle, hay, i) {
      var i :| OccursAt(needle, hay, i);
      OffsetIsSubstring(needle, hay, i);
    }
  }

  /** A case-sensitive occurrence is also a case-insensitive one. */
  lemma {:induction false} SubstringLower(needle: string, hay: string)
    requires IsSubstring(needle, hay)
    ensures IsSubstring(Lower(needle), Lower(hay))
    decreases |hay|
  {
    if needle <= hay {
      assert Lower(needle) == Lower(hay)[..|needle|];
    } else {
      SubstringLower(needle, hay[1..]);
      assert Lower(hay[1..]) == Lower(hay)[1..];
    }
  }

  /** Lexicographic order by code point (the database's binary collation). */
  predicate StrLess(a: string, b: string) {
    if a == [] then b != []
    else if b == [] then false
    else a[0] < b[0] || (a[0] == b[0] && StrLess(a[1..], b[1..]))
  }

  lemma {:induction false} StrLessIrreflexive(a: string)
    ensures !StrLess(a, a)
  {
    if a != [] { StrLessIrreflexive(a[1..]); }
  }

  lemma {:induction false} StrLessTrichotomy(a: string, b: string)
    ensures a == b || StrLess(a, b) || StrLess(b, a)
  {
    if a != [] && b != [] && a[0] == b[0] {
      StrLessTrichotomy(a[1..], b[1..]);
      if a[1..] == b[1..] { assert a == [a[0]] + a[1..] && b == [b[0]] + b[1..]; }
    }
  }

  lemma {:induction false} StrLessTransitive(a: string, b: string, c: string)
    requires StrLess(a, b) && StrLess(b, c)
    ensures StrLess(a, c)
  {
    if a != [] && b != [] && c != [] && a[0] == b[0] && b[0] == c[0] {
      StrLessTransitive(a[1..], b[1..], c[1..]);
    }
  }

  lemma StrLessAsymmetric(a: string, b: string)
    requires StrLess(a, b)
    ensures !StrLess(b, a)
  {
    if StrLess(b, a) {
      StrLessTransitive(a, b, a);
      StrLessIrreflexive(a);
    }
  }

  predicate IsDigit(c: char) { '0' <= c <= '9' }

  function DigitChar(n: int): (c: char)
    requires 0 <= n <= 9
    ensures IsDigit(c)
  {
    (('0' as int) + n) as char
  }

  function DigitValue(c: char): (n: int)
    requires IsDigit(c)
    ensures 0 <= n <= 9 && DigitChar(n) == c
  {
    c as int - '0' as int
  }

  /** Decimal rendering of a natural number, as Python's str(n). */
  function NatToString(n: nat): (s: string)
    ensures |s| >= 1 && AllDigits(s)
    decreases n
  {
    if n < 10 then [DigitChar(n)] else NatToString(n / 10) + [DigitChar(n % 10)]
  }

  /** Decimal rendering of an integer, as Python's str(i) (f-string interpolation). */
  function IntToString(i: int): string {
    if i < 0 then "-" + NatToString(-i) else NatToString(i)
  }

  predicate AllDigits(s: string) { forall i :: 0 <= i < |s| ==> IsDigit(s[i]) }

  /** Value of a non-empty string of decimal digits. */
  function DigitsValue(s: string): (n: nat)
    requires AllDigits(s)
    decreases |s|
  {
    if s == [] then 0 else DigitsValue(s[..|s| - 1]) * 10 + DigitValue(s[|s| - 1])
  }

  /** The text after one optional leading sign. */
  function Unsigned(s: string): (d: string)
    ensures |d| == |s| || (s != [] && (s[0] == '-' || s[0] == '+') && d == s[1..])
  {
    if s != [] && (s[0] == '-' || s[0] == '+') then s[1..] else s
  }

  /** Python's int(s) on a string of ASCII digits with an optional sign; None where int() raises ValueError. */
  function ParseInt(s: string): (r: Option<int>)
    ensures r.Some? <==> Unsigned(s) != [] && AllDigits(Unsigned(s))
    ensures r.Some? ==> r.value == (if s[0] == '-' then -1 else 1) * DigitsValue(Unsigned(s))
    ensures s == [] ==> r.None?
    ensures s != [] && AllDigits(s) ==> r == Some(DigitsValue(s))
    ensures s != [] && !IsDigit(s[0]) && s[0] != '-' && s[0] != '+' ==> r.None?
    ensures r.Some? ==> s != [] && (s[0] != '-' ==> r.value >= 0) && (s[0] == '-' ==> r.value <= 0)
  {
    var digits := Unsigned(s);
    if digits == [] || !AllDigits(digits) then None
    else
      var magnitude: int := DigitsValue(digits);
      Some(if s[0] == '-' then -magnitude else magnitude)
  }

  /** A bare sign, a sign in the middle and a trailing non-digit make int() raise; a sign and
      leading zeros are read as int() reads them. */
  lemma ParseIntExamples()
    ensures ParseInt("5a").None? && ParseInt("-").None? && ParseInt("+").None?
    ensures ParseInt("1-2").None? && ParseInt("--1").None? && ParseInt("a5").None?
    ensures ParseInt("-42") == Some(-42) && ParseInt("+7") == Some(7) && ParseInt("007") == Some(7)
  {
    assert !IsDigit("5a"[1]);
    assert !IsDigit("1-2"[1]);
    assert !IsDigit("--1"[1..][0]);
    assert Unsigned("-42") == "42" && Unsigned("+7") == "7";
    assert "42"[..1] == "4" && "007"[..2] == "00" && "00"[..1] == "0";
  }

  lemma {:induction false} DigitsValueOfNatToString(n: nat)
    ensures DigitsValue(NatToString(n)) == n
    decreases n
  {
    if n >= 10 {
      DigitsValueOfNatToString(n / 10);
      var s := NatToString(n);
      assert s[..|s| - 1] == NatToString(n / 10);
    }
  }

  /** Reading back the decimal rendering of an integer gives the integer. */
  lemma ParseIntOfIntToString(i: int)
    ensures ParseInt(IntToString(i)) == Some(i)
  {
    var s := IntToString(i);
    if i < 0 {
      var digits := NatToString(-i);
      DigitsValueOfNatToString(-i);
      assert s == "-" + digits;
      assert s[1..] == digits;
      assert IsDigit(digits[0]);
    } else {
      var digits := NatToString(i);
      DigitsValueOfNatToString(i);
      assert s[0..] == digits;
      assert IsDigit(s[0]);
    }
  }
}
