/**
 * The pieces of the C library that the simulator's parsers lean on:
 * `isspace`, `strtoul`/`strtol`/`atoi`/`atol` (glibc semantics: leading
 * white space, an optional sign, base prefixes for base 0 and 16, saturation
 * on overflow, `end` left at the start when nothing converts), decimal
 * printing as `%u`/`%d` do it, `strstr`, `strchr`, `strncmp` and
 * `strcasecmp`. C strings are `string`s without NUL; the end of the sequence
 * plays the part of the terminator.
 */
module CLib {
  import opened CInt
  import opened Wrappers

  predicate CString(s: string) { forall i :: 0 <= i < |s| ==> s[i] != '\0' }

  predicate IsSpace(c: char)
  {
    c == ' ' || c == '\t' || c == '\n' || c == '\U{000B}' || c == '\U{000C}' || c == '\r'
  }

  predicate IsDigit(c: char) { '0' <= c <= '9' }

  function Min(a: int, b: int): int { if a < b then a else b }

  /** Digit value in bases up to 36; 36 stands for "not a digit". */
  function DigitValue(c: char): (v: nat)
    ensures v <= 36
    ensures v < 10 <==> IsDigit(c)
  {
    if '0' <= c <= '9' then c as int - '0' as int
    else if 'a' <= c <= 'z' then c as int - 'a' as int + 10
    else if 'A' <= c <= 'Z' then c as int - 'A' as int + 10
    else 36
  }

  /** Index of the first non-space character at or after `i`. */
  function SkipSpaces(s: string, i: nat): (j: nat)
    requires i <= |s|
    ensures i <= j <= |s|
    ensures j == |s| || !IsSpace(s[j])
    decreases |s| - i
  {
    if i < |s| && IsSpace(s[i]) then SkipSpaces(s, i + 1) else i
  }

  /** Index just past the longest run of base-`base` digits starting at `i`. */
  function DigitsEnd(s: string, i: nat, base: nat): (j: nat)
    requires i <= |s|
    ensures i <= j <= |s|
    ensures j == |s| || DigitValue(s[j]) >= base
    decreases |s| - i
  {
    if i < |s| && DigitValue(s[i]) < base then DigitsEnd(s, i + 1, base) else i
  }

  /** The number that the digit string `d` denotes in base `base`. */
  function ValueOf(d: string, base: nat): nat
    decreases |d|
  {
    if d == [] then 0 else ValueOf(d[..|d| - 1], base) * base + DigitValue(d[|d| - 1])
  }

  /** What `strto*` read: the sign, the exact magnitude and where it stopped. */
  datatype Scan = Scan(negative: bool, magnitude: nat, end: nat)

  predicate HexPrefixAt(s: string, j: nat)
  {
    j + 2 < |s| && s[j] == '0' && (s[j + 1] == 'x' || s[j + 1] == 'X') && DigitValue(s[j + 2]) < 16
  }

  /** The common front end of `strtoul` and `strtol`; None when no digit converts. */
  function ScanInteger(s: string, base: nat): (r: Option<Scan>)
    requires base == 0 || 2 <= base <= 36
    ensures r.Some? ==> 0 < r.value.end <= |s|
  {
    var i := SkipSpaces(s, 0);
    var signed := i < |s| && (s[i] == '-' || s[i] == '+');
    var j := if signed then i + 1 else i;
    var hex := (base == 0 || base == 16) && HexPrefixAt(s, j);
    var b := if base != 0 then base else if hex then 16 else if j < |s| && s[j] == '0' then 8 else 10;
    var k := if hex then j + 2 else j;
    var e := DigitsEnd(s, k, b);
    if e == k then None else Some(Scan(signed && s[i] == '-', ValueOf(s[k..e], b), e))
  }

  /** A conversion result and the index `end` points at (0 when nothing converted). */
  datatype Conversion = Conversion(value: int, end: nat)

  /** `strtoul(s, &end, base)` on a 64-bit `unsigned long`. */
  function StrToUL(s: string, base: nat): (r: Conversion)
    requires base == 0 || 2 <= base <= 36
    ensures 0 <= r.value <= ULONG_MAX && r.end <= |s|
    ensures ScanInteger(s, base).None? ==> r == Conversion(0, 0)
  {
    match ScanInteger(s, base)
    case None => Conversion(0, 0)
    case Some(sc) =>
      var v: int := if sc.magnitude > ULONG_MAX then ULONG_MAX
               else if sc.negative then Wrap(-(sc.magnitude as int), U64)
               else sc.magnitude;
      Conversion(v, sc.end)
  }

  /** `strtol(s, &end, base)` on a 64-bit `long`. */
  function StrToL(s: string, base: nat): (r: Conversion)
    requires base == 0 || 2 <= base <= 36
    ensures LONG_MIN <= r.value <= LONG_MAX && r.end <= |s|
    ensures ScanInteger(s, base).None? ==> r == Conversion(0, 0)
  {
    match ScanInteger(s, base)
    case None => Conversion(0, 0)
    case Some(sc) =>
      var v: int := if !sc.negative then (if sc.magnitude > LONG_MAX then LONG_MAX else sc.magnitude)
               else if sc.magnitude > -LONG_MIN then LONG_MIN
               else -(sc.magnitude as int);
      Conversion(v, sc.end)
  }

  /** glibc's `atoi`: `(int) strtol(s, NULL, 10)`. */
  function Atoi(s: string): (r: int)
    ensures IsInt32(r)
  {
    ToInt32(Wrap(StrToL(s, 10).value, U32))
  }

  /** glibc's `atol`: `strtol(s, NULL, 10)`. */
  function Atol(s: string): (r: int)
    ensures LONG_MIN <= r <= LONG_MAX
  {
    StrToL(s, 10).value
  }

  function DigitChar(d: nat): (c: char)
    requires d < 10
    ensures IsDigit(c) && DigitValue(c) == d
  {
    ('0' as int + d) as char
  }

  /** `%u` / `%lu`: the shortest decimal numeral of `n`. */
  function NatToDecimal(n: nat): (s: string)
    ensures 1 <= |s| && forall i :: 0 <= i < |s| ==> IsDigit(s[i])
    decreases n
  {
    if n < 10 then [DigitChar(n)] else NatToDecimal(n / 10) + [DigitChar(n % 10)]
  }

  /** `%d` / `%i`. */
  function IntToDecimal(x: int): (s: string)
    ensures 1 <= |s|
  {
    if x < 0 then "-" + NatToDecimal(-x) else NatToDecimal(x)
  }

  lemma {:induction false} ValueOfDecimal(n: nat)
    ensures ValueOf(NatToDecimal(n), 10) == n
    decreases n
  {
    if n >= 10 {
      var d := NatToDecimal(n);
      assert d[..|d| - 1] == NatToDecimal(n / 10);
      ValueOfDecimal(n / 10);
    }
  }

  /** A run of digits followed by a non-digit (or the end) is read up to that point. */
  lemma {:induction false} DigitsEndOfRun(s: string, i: nat, j: nat, base: nat)
    requires i <= j <= |s|
    requires forall k :: i <= k < j ==> DigitValue(s[k]) < base
    requires j == |s| || DigitValue(s[j]) >= base
    ensures DigitsEnd(s, i, base) == j
    decreases j - i
  {
    if i < j { DigitsEndOfRun(s, i + 1, j, base); }
  }

  /** Everything `SkipSpaces` steps over is a blank. */
  lemma {:induction false} SkippedAreSpaces(s: string, i: nat, k: nat)
    requires i <= |s| && i <= k < SkipSpaces(s, i)
    ensures IsSpace(s[k])
    decreases k - i
  {
    if i < k { SkippedAreSpaces(s, i + 1, k); }
  }

  /** Everything `DigitsEnd` steps over is a digit of the base. */
  lemma {:induction false} ReadAreDigits(s: string, i: nat, base: nat, k: nat)
    requires i <= |s| && i <= k < DigitsEnd(s, i, base)
    ensures DigitValue(s[k]) < base
    decreases k - i
  {
    if i < k { ReadAreDigits(s, i + 1, base, k); }
  }

  /** A text that converts as a whole holds only blanks, a sign, the `x` of
    * a base prefix and digits. */
  lemma WholeNumeral(s: string, base: nat, k: nat)
    requires base == 0 || 2 <= base <= 36
    requires ScanInteger(s, base).Some? && ScanInteger(s, base).value.end == |s| && k < |s|
    ensures IsSpace(s[k]) || s[k] == '+' || s[k] == '-' || DigitValue(s[k]) < 36
  {
    var i := SkipSpaces(s, 0);
    var signed := i < |s| && (s[i] == '-' || s[i] == '+');
    var j := if signed then i + 1 else i;
    var hex := (base == 0 || base == 16) && HexPrefixAt(s, j);
    var b := if base != 0 then base else if hex then 16 else if j < |s| && s[j] == '0' then 8 else 10;
    var kk := if hex then j + 2 else j;
    if k < i {
      SkippedAreSpaces(s, 0, k);
    } else if k >= kk {
      ReadAreDigits(s, kk, b, k);
    }
  }

  /** A decimal numeral embedded at `off` and not followed by a digit reads as its value. */
  lemma DecimalAt(s: string, off: nat, n: nat)
    requires off + |NatToDecimal(n)| <= |s|
    requires s[off..off + |NatToDecimal(n)|] == NatToDecimal(n)
    requires off + |NatToDecimal(n)| == |s| || !IsDigit(s[off + |NatToDecimal(n)|])
    ensures DigitsEnd(s, off, 10) == off + |NatToDecimal(n)|
    ensures ValueOf(s[off..DigitsEnd(s, off, 10)], 10) == n
  {
    var d := NatToDecimal(n);
    assert forall k :: off <= k < off + |d| ==> s[k] == d[k - off];
    DigitsEndOfRun(s, off, off + |d|, 10);
    ValueOfDecimal(n);
  }

  /** Reading back what `%lu` printed, whatever follows unless it is a digit. */
  lemma StrToULDecimal(n: nat, rest: string)
    requires n <= ULONG_MAX
    requires rest == [] || !IsDigit(rest[0])
    ensures StrToUL(NatToDecimal(n) + rest, 10) == Conversion(n, |NatToDecimal(n)|)
  {
    var d := NatToDecimal(n);
    var s := d + rest;
    assert s[0..|d|] == d;
    assert SkipSpaces(s, 0) == 0 by { assert IsDigit(s[0]); }
    DecimalAt(s, 0, n);
  }

  ghost function Pow10(k: nat): nat
  {
    if k == 0 then 1 else 10 * Pow10(k - 1)
  }

  /** A number below 10^k prints with at most k digits. */
  lemma {:induction false} DecimalWidth(n: nat, k: nat)
    requires 1 <= k && n < Pow10(k)
    ensures |NatToDecimal(n)| <= k
    decreases k
  {
    if n >= 10 {
      assert k >= 2;
      assert n / 10 < Pow10(k - 1);
      DecimalWidth(n / 10, k - 1);
    }
  }

  /** A numeral `%lu` prints starts with `0` only when it is `0`. */
  lemma {:induction false} LeadingDigit(n: nat)
    requires n > 0
    ensures NatToDecimal(n)[0] != '0'
    decreases n
  {
    if n >= 10 {
      LeadingDigit(n / 10);
      assert NatToDecimal(n)[0] == NatToDecimal(n / 10)[0];
    }
  }

  /** Reading back what `%lu` printed when `strtoul` picks the base itself,
    * up to a blank or the end. */
  lemma StrToULAutoDecimal(n: nat, rest: string)
    requires n <= ULONG_MAX
    requires rest == [] || IsSpace(rest[0])
    ensures StrToUL(NatToDecimal(n) + rest, 0) == Conversion(n, |NatToDecimal(n)|)
  {
    var d := NatToDecimal(n);
    var s := d + rest;
    if n == 0 {
      ZeroAutoBase(rest);
    } else {
      assert s[0..|d|] == d;
      assert SkipSpaces(s, 0) == 0 by { assert IsDigit(s[0]); }
      LeadingDigit(n);
      DecimalAt(s, 0, n);
      assert ScanInteger(s, 0) == Some(Scan(false, n, |d|));
    }
  }

  /** A lone `0` is read in base 8, which gives the same value. */
  lemma ZeroAutoBase(rest: string)
    requires rest == [] || IsSpace(rest[0])
    ensures StrToUL("0" + rest, 0) == Conversion(0, 1)
  {
    var s := "0" + rest;
    assert SkipSpaces(s, 0) == 0;
    assert !HexPrefixAt(s, 0);
    DigitsEndOfRun(s, 0, 1, 8);
    assert s[0..1] == "0";
    assert ValueOf("0", 8) == 0 by { assert "0"[..0] == ""; }
    assert ScanInteger(s, 0) == Some(Scan(false, 0, 1));
  }

  /** Reading back a negative `%ld`. */
  lemma StrToLNegative(m: nat, rest: string)
    requires 0 < m <= -LONG_MIN
    requires rest == [] || !IsDigit(rest[0])
    ensures StrToL("-" + NatToDecimal(m) + rest, 10) == Conversion(-(m as int), 1 + |NatToDecimal(m)|)
  {
    var d := NatToDecimal(m);
    var s := "-" + d + rest;
    assert s[1..1 + |d|] == d;
    assert s[0] == '-' && !IsSpace(s[0]);
    assert SkipSpaces(s, 0) == 0;
    assert !HexPrefixAt(s, 1);
    DecimalAt(s, 1, m);
    assert ScanInteger(s, 10) == Some(Scan(true, m, 1 + |d|));
  }

  /** Reading back what `%ld` printed. */
  lemma StrToLDecimal(x: int, rest: string)
    requires LONG_MIN <= x <= LONG_MAX
    requires rest == [] || !IsDigit(rest[0])
    ensures StrToL(IntToDecimal(x) + rest, 10) == Conversion(x, |IntToDecimal(x)|)
  {
    if x < 0 {
      assert IntToDecimal(x) + rest == "-" + NatToDecimal(-x) + rest;
      StrToLNegative(-x, rest);
    } else {
      var d := NatToDecimal(x);
      var s := d + rest;
      assert s[0..|d|] == d;
      assert SkipSpaces(s, 0) == 0 by { assert IsDigit(s[0]); }
      DecimalAt(s, 0, x);
      assert ScanInteger(s, 10) == Some(Scan(false, x, |d|));
    }
  }

  /** `atoi` reads back what `%d` printed, for every `int`. */
  lemma AtoiDecimal(x: int, rest: string)
    requires IsInt32(x)
    requires rest == [] || !IsDigit(rest[0])
    ensures Atoi(IntToDecimal(x) + rest) == x
  {
    StrToLDecimal(x, rest);
    assert x < 0 ==> Wrap(x, U32) == x + U32;
  }

  /** `atol` reads back what `%ld` printed, for every `long`. */
  lemma AtolDecimal(x: int, rest: string)
    requires LONG_MIN <= x <= LONG_MAX
    requires rest == [] || !IsDigit(rest[0])
    ensures Atol(IntToDecimal(x) + rest) == x
  {
    StrToLDecimal(x, rest);
  }

  predicate OccursAt(hay: string, needle: string, k: nat)
  {
    k + |needle| <= |hay| && hay[k..k + |needle|] == needle
  }

  function FindFrom(hay: string, needle: string, i: nat): (r: Option<nat>)
    requires i <= |hay|
    ensures r.Some? ==> i <= r.value && OccursAt(hay, needle, r.value)
    ensures r.Some? ==> forall k :: i <= k < r.value ==> !OccursAt(hay, needle, k)
    ensures r.None? ==> forall k :: i <= k <= |hay| ==> !OccursAt(hay, needle, k)
    decreases |hay| - i
  {
    if OccursAt(hay, needle, i) then Some(i)
    else if i == |hay| then None
    else FindFrom(hay, needle, i + 1)
  }

  /** `strstr`: the first occurrence of `needle` in `hay`. */
  function StrStr(hay: string, needle: string): (r: Option<nat>)
    ensures r.Some? ==> OccursAt(hay, needle, r.value)
    ensures r.Some? ==> forall k :: 0 <= k < r.value ==> !OccursAt(hay, needle, k)
    ensures r.None? ==> forall k :: 0 <= k <= |hay| ==> !OccursAt(hay, needle, k)
  {
    FindFrom(hay, needle, 0)
  }

  /** `strchr` for a non-NUL character: the first index holding `c`. */
  function StrChr(s: string, c: char, i: nat): (r: Option<nat>)
    requires i <= |s|
    ensures r.Some? ==> i <= r.value < |s| && s[r.value] == c
    ensures r.Some? ==> forall k :: i <= k < r.value ==> s[k] != c
    ensures r.None? ==> forall k :: i <= k < |s| ==> s[k] != c
    decreases |s| - i
  {
    if i == |s| then None else if s[i] == c then Some(i) else StrChr(s, c, i + 1)
  }

  /** `strncmp(a, b, n) == 0`: the strings agree up to `n` characters or a common end. */
  predicate StrnEq(a: string, b: string, n: nat)
  {
    a[..Min(n, |a|)] == b[..Min(n, |b|)]
  }

  function ToLower(c: char): char
  {
    if 'A' <= c <= 'Z' then (c as int - 'A' as int + 'a' as int) as char else c
  }

  /** `strcasecmp(a, b) == 0` in the C locale. */
  predicate StrCaseEq(a: string, b: string)
  {
    |a| == |b| && forall i :: 0 <= i < |a| ==> ToLower(a[i]) == ToLower(b[i])
  }

  predicate StartsWith(s: string, p: string)
  {
    |p| <= |s| && s[..|p|] == p
  }
}
