/** Numerals and small string operations used by identifiers, times and attributes. */
module Text {
  import opened Wrappers
  import opened Bytes

  type Radix = r: int | r == 10 || r == 16 witness 10

  // Arithmetic in the radix, written with constant factors so that it stays linear.

  function Times(radix: Radix, n: nat): nat {
    if radix == 10 then 10 * n else 16 * n
  }

  function Quotient(n: nat, radix: Radix): (q: nat)
    ensures n >= radix ==> 0 < q < n
  {
    if radix == 10 then n / 10 else n / 16
  }

  function Remainder(n: nat, radix: Radix): (r: nat)
    ensures r < radix
    ensures n == Times(radix, Quotient(n, radix)) + r
  {
    if radix == 10 then n % 10 else n % 16
  }

  function DigitChar(d: nat): char
    requires d < 16
  {
    if d < 10 then '0' + d as char else 'A' + (d - 10) as char
  }

  /** The value of a digit in either letter case, or 16 when `c` is none. */
  function DigitValue(c: char): nat {
    if '0' <= c <= '9' then (c - '0') as nat
    else if 'A' <= c <= 'F' then (c - 'A') as nat + 10
    else if 'a' <= c <= 'f' then (c - 'a') as nat + 10
    else 16
  }

  predicate DigitAt(s: string, i: nat, radix: Radix)
    requires i < |s|
  {
    DigitValue(s[i]) < radix
  }

  predicate AllDigits(s: string, radix: Radix) {
    forall i :: 0 <= i < |s| ==> DigitAt(s, i, radix)
  }

  lemma DigitsConcat(s: string, t: string, radix: Radix)
    ensures AllDigits(s + t, radix) <==> AllDigits(s, radix) && AllDigits(t, radix)
  {
    if AllDigits(s + t, radix) {
      assert forall i :: 0 <= i < |s| ==> DigitAt(s + t, i, radix) == DigitAt(s, i, radix);
      assert forall i :: 0 <= i < |t| ==> DigitAt(s + t, |s| + i, radix) == DigitAt(t, i, radix);
    }
    if AllDigits(s, radix) && AllDigits(t, radix) {
      forall i | 0 <= i < |s + t|
        ensures DigitAt(s + t, i, radix)
      {
        assert if i < |s| then DigitAt(s, i, radix) else DigitAt(t, i - |s|, radix);
      }
    }
  }

  lemma DigitsAvoid(s: string, radix: Radix, c: char)
    requires AllDigits(s, radix) && DigitValue(c) >= radix
    ensures c !in s
  {
    forall i | 0 <= i < |s|
      ensures s[i] != c
    {
      assert DigitAt(s, i, radix);
    }
  }

  function Power(radix: Radix, k: nat): (p: nat)
    ensures p >= 1
  {
    if k == 0 then 1 else Times(radix, Power(radix, k - 1))
  }

  lemma HexPowers()
    ensures Power(16, 4) == 0x1_0000 && Power(16, 8) == 0x1_0000_0000
  {
    assert Power(16, 4) == 16 * (16 * (16 * (16 * Power(16, 0))));
    assert Power(16, 8) == 16 * (16 * (16 * (16 * Power(16, 4))));
  }

  lemma DecimalPowers()
    ensures Power(10, 2) == 100 && Power(10, 5) == 100_000 && Power(10, 6) == 1_000_000
    ensures Power(10, 12) == 1_000_000_000_000
  {
    assert Power(10, 5) == 10 * (10 * (10 * Power(10, 2)));
    assert Power(10, 6) == 10 * Power(10, 5);
    assert Power(10, 9) == 10 * (10 * (10 * Power(10, 6)));
    assert Power(10, 12) == 10 * (10 * (10 * Power(10, 9)));
  }

  /** The number a digit string denotes. */
  function Value(s: string, radix: Radix): nat {
    if s == "" then 0 else Times(radix, Value(s[..|s| - 1], radix)) + DigitValue(s[|s| - 1])
  }

  /** The `width` low digits of `n`, most significant first. */
  function Fixed(n: nat, width: nat, radix: Radix): (s: string)
    ensures |s| == width
    ensures AllDigits(s, radix)
    decreases width, n  // keeps the solver from unrolling calls with a literal width
  {
    if width == 0 then ""
    else
      DigitsConcat(Fixed(Quotient(n, radix), width - 1, radix), [DigitChar(Remainder(n, radix))], radix);
      Fixed(Quotient(n, radix), width - 1, radix) + [DigitChar(Remainder(n, radix))]
  }

  /** `n` without leading zeros, as `{}` prints it. */
  function Natural(n: nat, radix: Radix): (s: string)
    ensures |s| > 0
    ensures AllDigits(s, radix)
    ensures Value(s, radix) == n
  {
    if n < radix then
      assert Value([DigitChar(n)][..0], radix) == 0;
      [DigitChar(n)]
    else
      var high := Natural(Quotient(n, radix), radix);
      assert (high + [DigitChar(Remainder(n, radix))])[..|high|] == high;
      DigitsConcat(high, [DigitChar(Remainder(n, radix))], radix);
      high + [DigitChar(Remainder(n, radix))]
  }

  /** `{n:0width}`: at least `width` digits, more when the number needs them. */
  function Padded(n: nat, width: nat, radix: Radix): (s: string)
    ensures |s| >= width
    ensures AllDigits(s, radix)
  {
    if n < Power(radix, width) then Fixed(n, width, radix)
    else
      NaturalLength(n, width, radix);
      Natural(n, radix)
  }

  lemma {:induction false} NaturalLength(n: nat, width: nat, radix: Radix)
    requires n >= Power(radix, width)
    ensures |Natural(n, radix)| > width
  {
    if width > 0 {
      NaturalLength(Quotient(n, radix), width - 1, radix);
    }
  }

  lemma {:induction false} ValueOfFixed(n: nat, width: nat, radix: Radix)
    requires n < Power(radix, width)
    ensures Value(Fixed(n, width, radix), radix) == n
  {
    if width > 0 {
      ValueOfFixed(Quotient(n, radix), width - 1, radix);
      var s := Fixed(n, width, radix);
      assert s[..width - 1] == Fixed(Quotient(n, radix), width - 1, radix);
    }
  }

  /** Identifier fields of four and eight hexadecimal digits never overflow their width. */
  lemma HexField(n: nat, width: nat)
    requires (width == 4 && n < U16_LIMIT) || (width == 8 && n < U32_LIMIT)
    ensures Padded(n, width, 16) == Fixed(n, width, 16)
    ensures Value(Fixed(n, width, 16), 16) == n
  {
    HexPowers();
    ValueOfFixed(n, width, 16);
  }

  lemma ValueOfPadded(n: nat, width: nat, radix: Radix)
    ensures Value(Padded(n, width, radix), radix) == n
  {
    if n < Power(radix, width) {
      ValueOfFixed(n, width, radix);
    }
  }

  /** Rust's unsigned `from_str_radix`: an optional plus sign and at least one digit. */
  function ParseUnsigned(s: string, radix: Radix, limit: nat): Option<nat> {
    var digits := if |s| > 0 && s[0] == '+' then s[1..] else s;
    if digits != "" && AllDigits(digits, radix) && Value(digits, radix) < limit
    then Some(Value(digits, radix))
    else None
  }

  lemma ParseDigits(s: string, radix: Radix, limit: nat)
    requires s != "" && AllDigits(s, radix) && Value(s, radix) < limit
    ensures ParseUnsigned(s, radix, limit) == Some(Value(s, radix))
  {
    assert DigitAt(s, 0, radix);
  }

  predicate IsSpace(c: char) {
    c == ' ' || '\t' <= c <= '\r'
  }

  function Trim(s: string): string {
    if s == "" then s
    else if IsSpace(s[0]) then Trim(s[1..])
    else if IsSpace(s[|s| - 1]) then Trim(s[..|s| - 1])
    else s
  }

  predicate IsAscii(s: string) {
    forall i :: 0 <= i < |s| ==> s[i] < 128 as char
  }

  function AsciiBytes(s: string): (bs: seq<byte>)
    requires IsAscii(s)
    ensures |bs| == |s|
  {
    seq(|s|, i requires 0 <= i < |s| => s[i] as int)
  }

  function UpperCase(c: char): char {
    if 'a' <= c <= 'z' then c - 'a' + 'A' else c
  }

  predicate EqualIgnoringCase(s: string, t: string) {
    |s| == |t| && forall i :: 0 <= i < |s| ==> UpperCase(s[i]) == UpperCase(t[i])
  }

  // ---------------------------------------------------------------- what reading a string means

  /** The sixteen digits in both letter cases. */
  lemma DigitsAre(c: char, d: nat)
    requires d < 16
    ensures DigitValue(c) == d <==> c == "0123456789ABCDEF"[d] || c == "0123456789abcdef"[d]
  {
  }

  lemma SpacesAre(c: char)
    ensures IsSpace(c) <==> c in " \t\n\U{000B}\U{000C}\r"
  {
  }

  predicate AllSpaces(s: string) {
    forall i :: 0 <= i < |s| ==> IsSpace(s[i])
  }

  /** `t` is what is left of `s` without the white space at both ends. */
  ghost predicate IsTrimmed(s: string, t: string) {
    && (t == "" || (!IsSpace(t[0]) && !IsSpace(t[|t| - 1])))
    && exists a, b :: AllSpaces(a) && AllSpaces(b) && s == a + t + b
  }

  lemma TrimMeans(s: string)
    ensures IsTrimmed(s, Trim(s))
  {
    hide IsSpace, Trim;
    var a, b := TrimParts(s);
    assert s == a + Trim(s) + b;
  }

  lemma TrimStep(s: string)
    ensures s == "" || (!IsSpace(s[0]) && !IsSpace(s[|s| - 1])) ==> Trim(s) == s
    ensures s != "" && IsSpace(s[0]) ==> Trim(s) == Trim(s[1..])
    ensures s != "" && !IsSpace(s[0]) && IsSpace(s[|s| - 1]) ==> Trim(s) == Trim(s[..|s| - 1])
  {
    hide IsSpace;
  }

  lemma {:induction false} TrimParts(s: string) returns (a: string, b: string)
    ensures AllSpaces(a) && AllSpaces(b) && s == a + Trim(s) + b
    ensures Trim(s) == "" || (!IsSpace(Trim(s)[0]) && !IsSpace(Trim(s)[|Trim(s)| - 1]))
    decreases |s|
  {
    hide IsSpace, Trim;
    TrimStep(s);
    if s == "" {
      a, b := "", "";
    } else if IsSpace(s[0]) {
      var front, back := TrimParts(s[1..]);
      a, b := [s[0]] + front, back;
      assert s == [s[0]] + s[1..];
    } else if IsSpace(s[|s| - 1]) {
      var front, back := TrimParts(s[..|s| - 1]);
      a, b := front, back + [s[|s| - 1]];
      assert s == s[..|s| - 1] + [s[|s| - 1]];
    } else {
      a, b := "", "";
    }
  }

  /** One letter, in either case, or one other character. */
  predicate SameLetter(c: char, d: char) {
    c == d || ('a' <= c <= 'z' && d == c - 'a' + 'A') || ('a' <= d <= 'z' && c == d - 'a' + 'A')
  }

  lemma CaseMeans(s: string, t: string)
    ensures EqualIgnoringCase(s, t) <==> |s| == |t| && forall i :: 0 <= i < |s| ==> SameLetter(s[i], t[i])
  {
    forall i | 0 <= i < |s| && i < |t|
      ensures SameLetter(s[i], t[i]) <==> UpperCase(s[i]) == UpperCase(t[i])
    {
      LetterMeans(s[i], t[i]);
    }
  }

  lemma LetterMeans(c: char, d: char)
    ensures SameLetter(c, d) <==> UpperCase(c) == UpperCase(d)
  {
  }

  /** `s` is these digits, perhaps behind a plus sign. */
  predicate IsNumeral(s: string, digits: string, radix: Radix) {
    digits != "" && (s == digits || s == "+" + digits) && AllDigits(digits, radix)
  }

  /** An unsigned numeral: nothing but digits, perhaps behind a plus sign, and a value below the limit. */
  lemma ParseUnsignedMeans(s: string, radix: Radix, limit: nat, n: nat)
    ensures ParseUnsigned(s, radix, limit) == Some(n) <==>
      n < limit && exists digits :: IsNumeral(s, digits, radix) && Value(digits, radix) == n
  {
    hide Value;
    if digits :| IsNumeral(s, digits, radix) && Value(digits, radix) == n && n < limit {
      assert DigitAt(digits, 0, radix);
      assert s == "+" + digits ==> s[1..] == digits;
    }
    if ParseUnsigned(s, radix, limit) == Some(n) {
      var digits := if |s| > 0 && s[0] == '+' then s[1..] else s;
      assert |s| > 0 && s[0] == '+' ==> s == "+" + digits;
      assert IsNumeral(s, digits, radix);
    }
  }

  /** Digits weigh by their place: a numeral is its front, moved up, and its back. */
  lemma {:induction false} ValueOfJoin(s: string, t: string, radix: Radix)
    ensures Value(s + t, radix) == Value(s, radix) * Power(radix, |t|) + Value(t, radix)
  {
    if t == "" {
      assert s + t == s;
    } else {
      var n := |t| - 1;
      assert (s + t)[..|s + t| - 1] == s + t[..n];
      ValueOfJoin(s, t[..n], radix);
      ShiftedProduct(Value(s, radix), Power(radix, n), Value(t[..n], radix), radix);
    }
  }

  lemma ShiftedProduct(a: nat, p: nat, b: nat, radix: Radix)
    ensures Times(radix, a * p + b) == a * Times(radix, p) + Times(radix, b)
  {
    if radix == 10 {
      assert a * (10 * p) == 10 * (a * p);
    } else {
      assert a * (16 * p) == 16 * (a * p);
    }
  }
}
