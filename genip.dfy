/**
 * The argument parsers of the `gen_ip` command: numbers, protocols, dotted
 * quads, escaped payload text, TCP flags and options, MAC addresses, and the
 * header fields of the IPv4 packet they build. Checksums and the sending of
 * the packet are not part of this model.
 */
module GenIp {
  import opened Wrappers
  import opened CInt
  import opened CLib
  import Wire

  type byte = Wire.byte

  // ------------------------------------------------------------------
  // Numbers and protocols
  // ------------------------------------------------------------------

  /** `(unsigned int) -1`, the failure value of `string_to_number`. */
  const BAD_NUMBER: nat := U32 - 1

  /** The text converts as a whole with `strtoul` in base 0: something was
    * read and nothing follows it. */
  predicate Converts(s: string)
  {
    var c := StrToUL(s, 0);
    c.end != 0 && c.end == |s|
  }

  /** `string_to_number(s, min, max)`: the value `strtoul` reads from the
    * whole of `s` in base 0 (decimal, `0x` hex or leading-`0` octal, after
    * optional blanks and sign), cut to an `unsigned int`, when it lies in
    * `[min, max]`; `(unsigned) -1` for anything else. */
  function StringToNumber(s: string, min: nat, max: nat): (r: nat)
    ensures r < U32
    ensures r == BAD_NUMBER || min <= r <= max
    ensures r != BAD_NUMBER ==> Converts(s) && r == Wrap(StrToUL(s, 0).value, U32)
    ensures s == "" ==> r == BAD_NUMBER
  {
    var c := StrToUL(s, 0);
    var n := Wrap(c.value, U32);
    if c.end == |s| && c.end != 0 && min <= n <= max then n else BAD_NUMBER
  }

  /** A number printed in decimal reads back as itself when it is in range. */
  lemma StringToNumberReadsDecimal(n: nat, min: nat, max: nat)
    requires min <= n <= max && n < U32
    ensures StringToNumber(NatToDecimal(n), min, max) == n
  {
    StrToULAutoDecimal(n, "");
    assert NatToDecimal(n) + "" == NatToDecimal(n);
  }

  /** A number printed in decimal but outside the range is refused. */
  lemma StringToNumberRefusesOutside(n: nat, min: nat, max: nat)
    requires n < U32 && (n < min || max < n) && max < BAD_NUMBER
    ensures StringToNumber(NatToDecimal(n), min, max) == BAD_NUMBER
  {
    StrToULAutoDecimal(n, "");
    assert NatToDecimal(n) + "" == NatToDecimal(n);
  }

  /** The conversion to `unsigned int` wraps: 2^32 reads as 0. */
  lemma StringToNumberWraps()
    ensures StringToNumber(NatToDecimal(U32), 0, 10) == 0
  {
    StrToULAutoDecimal(U32, "");
    assert NatToDecimal(U32) + "" == NatToDecimal(U32);
  }

  /** A whole numeral holds no `.` and no `/`. */
  lemma NumeralHasNo(s: string, k: nat)
    requires Converts(s) && k < |s|
    ensures s[k] != '.' && s[k] != '/' && s[k] != ','
  {
    WholeNumeral(s, 0, k);
  }

  const IPPROTO_ICMP: nat := 1
  const IPPROTO_TCP: nat := 6
  const IPPROTO_UDP: nat := 17

  /** `parse_protocol`: a number up to 65535, or one of the names `all`,
    * `tcp`, `udp` and `icmp` in any case; -1 for anything else. */
  function ParseProtocol(s: string): (r: int)
    ensures -1 <= r < U16
  {
    var n := StringToNumber(s, 0, 65535);
    if n != BAD_NUMBER then n
    else if StrCaseEq(s, "all") then 0
    else if StrCaseEq(s, "tcp") then IPPROTO_TCP
    else if StrCaseEq(s, "udp") then IPPROTO_UDP
    else if StrCaseEq(s, "icmp") then IPPROTO_ICMP
    else -1
  }

  /** A text that starts with a letter is no number. */
  lemma LetterIsNoNumber(s: string)
    requires |s| > 0 && ('a' <= s[0] <= 'z' || 'A' <= s[0] <= 'Z')
    ensures !Converts(s)
  {
    assert SkipSpaces(s, 0) == 0;
    assert !HexPrefixAt(s, 0);
    assert DigitsEnd(s, 0, 10) == 0;
  }

  /** The protocol numbers by name, whatever the case of the name. */
  lemma ProtocolNames(s: string)
    ensures StrCaseEq(s, "all") ==> ParseProtocol(s) == 0
    ensures StrCaseEq(s, "tcp") ==> ParseProtocol(s) == IPPROTO_TCP
    ensures StrCaseEq(s, "udp") ==> ParseProtocol(s) == IPPROTO_UDP
    ensures StrCaseEq(s, "icmp") ==> ParseProtocol(s) == IPPROTO_ICMP
  {
    if StrCaseEq(s, "all") || StrCaseEq(s, "tcp") || StrCaseEq(s, "udp") || StrCaseEq(s, "icmp") {
      assert ToLower(s[0]) in "atui";
      LetterIsNoNumber(s);
    }
  }

  /** A protocol number printed in decimal reads back as itself. */
  lemma ProtocolNumbers(n: nat)
    requires n < U16
    ensures ParseProtocol(NatToDecimal(n)) == n
  {
    StringToNumberReadsDecimal(n, 0, 65535);
  }

  // ------------------------------------------------------------------
  // Separated fields
  // ------------------------------------------------------------------

  /** The pieces of `s` between the separators `sep` (one more than there
    * are separators). */
  function Fields(s: string, sep: char): (r: seq<string>)
    ensures |r| >= 1
    decreases |s|
  {
    match StrChr(s, sep, 0)
    case None => [s]
    case Some(q) => [s[..q]] + Fields(s[q + 1..], sep)
  }

  /** A piece without the separator, then the separator, then the rest. */
  lemma FieldsJoin(x: string, sep: char, y: string)
    requires sep !in x
    ensures Fields(x + [sep] + y, sep) == [x] + Fields(y, sep)
  {
    var s := x + [sep] + y;
    assert s[|x|] == sep;
    assert forall k :: 0 <= k < |x| ==> s[k] == x[k];
    assert StrChr(s, sep, 0) == Some(|x|);
    assert s[..|x|] == x && s[|x| + 1..] == y;
  }

  /** A text with the separator is more than one piece. */
  lemma FieldsLong(x: string, sep: char)
    requires sep in x
    ensures |Fields(x, sep)| >= 2
  {
    var q :| 0 <= q < |x| && x[q] == sep;
    assert StrChr(x, sep, 0).Some?;
  }

  /** A text without the separator is a single piece. */
  lemma FieldsSingle(x: string, sep: char)
    requires sep !in x
    ensures Fields(x, sep) == [x]
  {
    assert StrChr(x, sep, 0).None?;
  }

  // ------------------------------------------------------------------
  // Dotted quads
  // ------------------------------------------------------------------

  /** What `strncpy(buf, dotted, sizeof(buf) - 1)` keeps of the argument:
    * at most 19 characters. */
  function Copied(dotted: string): (buf: string)
    ensures |buf| <= 19 && |buf| <= |dotted| && buf == dotted[..|buf|]
  {
    dotted[..Min(|dotted|, 19)]
  }

  /** How a field is read as a number; the parsers below are stated over
    * such a reader so that their proofs never unfold `strtoul`. */
  type FieldReader = string -> nat

  /** `rd` reads a field as `string_to_number(f, 0, max)` does. */
  ghost predicate ReadsUpTo(rd: FieldReader, max: nat)
  {
    forall s {:trigger StringToNumber(s, 0, max)} :: rd(s) == StringToNumber(s, 0, max)
  }

  /** A field that `rd` accepts holds none of the separators. */
  ghost predicate SeparatorFree(rd: FieldReader)
  {
    forall s :: rd(s) != BAD_NUMBER ==> '.' !in s && '/' !in s && ',' !in s
  }

  function NumberReader(max: nat): FieldReader
  {
    s => StringToNumber(s, 0, max)
  }

  lemma NumberReaderReads(max: nat)
    ensures ReadsUpTo(NumberReader(max), max) && SeparatorFree(NumberReader(max))
  {
    forall s | NumberReader(max)(s) != BAD_NUMBER
      ensures '.' !in s && '/' !in s && ',' !in s
    {
      forall k | 0 <= k < |s|
        ensures s[k] != '.' && s[k] != '/' && s[k] != ','
      {
        NumeralHasNo(s, k);
      }
    }
  }

  /** `string_to_number(f, 0, max)`, through the reader `rd`. */
  method ReadField(f: string, max: nat, ghost rd: FieldReader) returns (n: nat)
    requires ReadsUpTo(rd, max)
    ensures n == rd(f) && n < U32 && (n == BAD_NUMBER || n <= max)
  {
    n := StringToNumber(f, 0, max);
  }

  /** The address in the text `buf`, its fields read by `rd`: exactly four
    * `.`-separated fields, each accepted, as the bytes of the address in
    * order. */
  function AddrBy(rd: FieldReader, buf: string): (r: Option<seq<nat>>)
    ensures r.Some? ==> |r.value| == 4
  {
    var f := Fields(buf, '.');
    if |f| == 4 && forall k :: 0 <= k < 4 ==> rd(f[k]) != BAD_NUMBER then
      Some([rd(f[0]), rd(f[1]), rd(f[2]), rd(f[3])])
    else None
  }

  /** The address in the text `buf`: exactly four `.`-separated fields, each
    * a number from 0 to 255 as `string_to_number` reads it. */
  function AddrOf(buf: string): (r: Option<seq<nat>>)
    ensures r.Some? ==> |r.value| == 4 && forall k :: 0 <= k < 4 ==> r.value[k] < 256
  {
    NumberReaderReads(255);
    AddrBy(NumberReader(255), buf)
  }

  /** `dotted_to_addr`: None (NULL) unless the copied text is an address;
    * its bytes otherwise. */
  method DottedToAddr(dotted: string) returns (r: Option<seq<nat>>)
    ensures r == AddrOf(Copied(dotted))
  {
    NumberReaderReads(255);
    r := DottedToAddrBy(dotted, NumberReader(255));
  }

  /** The loop of `dotted_to_addr`: the three fields ended by a `.`, then
    * the last, each stored as one byte of the address; None on the first
    * that is missing or out of range. */
  method DottedToAddrBy(dotted: string, ghost rd: FieldReader) returns (r: Option<seq<nat>>)
    requires ReadsUpTo(rd, 255) && SeparatorFree(rd)
    ensures r == AddrBy(rd, Copied(dotted))
  {
    var buf := Copied(dotted);
    ghost var f := Fields(buf, '.');
    var p := buf;
    var addr: seq<nat> := [];
    var i := 0;
    while i < 3
      invariant 0 <= i <= 3 && |addr| == i && i < |f|
      invariant Fields(p, '.') == f[i..]
      invariant forall k :: 0 <= k < i ==> rd(f[k]) != BAD_NUMBER && addr[k] == rd(f[k])
    {
      var ok, onebyte, p' := NextField(p, rd);
      if !ok {
        if onebyte == BAD_NUMBER {
          AddrByRefused(rd, buf, i);
        } else {
          AddrByShort(rd, buf);
        }
        return None;
      }
      addr := addr + [onebyte];
      p := p';
      i := i + 1;
    }
    var onebyte := ReadField(p, 255, rd);
    if onebyte == BAD_NUMBER {
      if '.' in p {
        FieldsLong(p, '.');
        AddrByLong(rd, buf);
      } else {
        FieldsSingle(p, '.');
        AddrByRefused(rd, buf, 3);
      }
      return None;
    }
    FieldsSingle(p, '.');
    addr := addr + [onebyte];
    AddrByAccepted(rd, buf, addr);
    r := Some(addr);
  }

  /** One pass of the loop: the field up to the next `.`, read by `rd`,
    * and the text after that `.`; not `ok` when there is no `.` (the number
    * is then 0) or the field is refused. */
  method NextField(p: string, ghost rd: FieldReader) returns (ok: bool, n: nat, rest: string)
    requires ReadsUpTo(rd, 255)
    ensures ok ==> |Fields(p, '.')| >= 2 && n == rd(Fields(p, '.')[0]) && n != BAD_NUMBER && Fields(rest, '.') == Fields(p, '.')[1..]
    ensures !ok && n == BAD_NUMBER ==> rd(Fields(p, '.')[0]) == BAD_NUMBER
    ensures !ok && n != BAD_NUMBER ==> |Fields(p, '.')| == 1
  {
    var q := StrChr(p, '.', 0);
    if q.None? {
      return false, 0, p;
    }
    var field := p[..q.value];
    rest := p[q.value + 1..];
    n := ReadField(field, 255, rd);
    ok := n != BAD_NUMBER;
  }

  /** Fewer than four fields is no address, */
  lemma AddrByShort(rd: FieldReader, buf: string)
    requires |Fields(buf, '.')| < 4
    ensures AddrBy(rd, buf) == None
  {
  }

  /** nor is a refused field among the first four, */
  lemma AddrByRefused(rd: FieldReader, buf: string, k: nat)
    requires k < 4 && k < |Fields(buf, '.')| && rd(Fields(buf, '.')[k]) == BAD_NUMBER
    ensures AddrBy(rd, buf) == None
  {
  }

  /** nor are more than four fields, */
  lemma AddrByLong(rd: FieldReader, buf: string)
    requires |Fields(buf, '.')| > 4
    ensures AddrBy(rd, buf) == None
  {
  }

  /** while four accepted fields are. */
  lemma AddrByAccepted(rd: FieldReader, buf: string, a: seq<nat>)
    requires |Fields(buf, '.')| == 4 && |a| == 4
    requires forall k :: 0 <= k < 4 ==> rd(Fields(buf, '.')[k]) != BAD_NUMBER && a[k] == rd(Fields(buf, '.')[k])
    ensures AddrBy(rd, buf) == Some(a)
  {
    assert a == [a[0], a[1], a[2], a[3]];
  }

  /** An address printed as four decimal fields joined by `.`. */
  function Dotted(a: seq<nat>): (s: string)
    requires |a| == 4
  {
    NatToDecimal(a[0]) + "." + NatToDecimal(a[1]) + "." + NatToDecimal(a[2]) + "." + NatToDecimal(a[3])
  }

  /** A printed address reads back as itself. */
  lemma DottedRoundTrip(a: seq<nat>)
    requires |a| == 4 && forall k :: 0 <= k < 4 ==> a[k] < 256
    ensures AddrOf(Copied(Dotted(a))) == Some(a)
  {
    var s := Dotted(a);
    DottedFields(a);
    var rd := NumberReader(255);
    forall k | 0 <= k < 4
      ensures rd(Fields(s, '.')[k]) == a[k]
    {
      StringToNumberReadsDecimal(a[k], 0, 255);
    }
    AddrByAccepted(rd, s, a);
  }

  /** The fields of a printed address are its four numerals. */
  lemma DottedFields(a: seq<nat>)
    requires |a| == 4 && forall k :: 0 <= k < 4 ==> a[k] < 256
    ensures Copied(Dotted(a)) == Dotted(a)
    ensures Fields(Dotted(a), '.') == [NatToDecimal(a[0]), NatToDecimal(a[1]), NatToDecimal(a[2]), NatToDecimal(a[3])]
  {
    NumeralsHaveNoDot(NatToDecimal(a[0]));
    NumeralsHaveNoDot(NatToDecimal(a[1]));
    NumeralsHaveNoDot(NatToDecimal(a[2]));
    NumeralsHaveNoDot(NatToDecimal(a[3]));
    LeadingZeroFree(a);
    JoinedFields(NatToDecimal(a[0]), NatToDecimal(a[1]), NatToDecimal(a[2]), NatToDecimal(a[3]));
  }

  /** Four pieces without `.`, joined by `.`, are the four fields. */
  lemma JoinedFields(d0: string, d1: string, d2: string, d3: string)
    requires '.' !in d0 && '.' !in d1 && '.' !in d2 && '.' !in d3
    ensures Fields(d0 + "." + d1 + "." + d2 + "." + d3, '.') == [d0, d1, d2, d3]
  {
    var t2 := d2 + ['.'] + d3;
    var t1 := d1 + ['.'] + t2;
    var t0 := d0 + ['.'] + t1;
    assert d0 + "." + d1 + "." + d2 + "." + d3 == t0;
    FieldsSingle(d3, '.');
    FieldsJoin(d2, '.', d3);
    FieldsJoin(d1, '.', t2);
    FieldsJoin(d0, '.', t1);
  }

  lemma NumeralsHaveNoDot(d: string)
    requires forall k :: 0 <= k < |d| ==> IsDigit(d[k])
    ensures '.' !in d
  {
  }

  /** The decimal numerals of bytes have at most three digits. */
  lemma LeadingZeroFree(a: seq<nat>)
    requires |a| == 4 && forall k :: 0 <= k < 4 ==> a[k] < 256
    ensures forall k :: 0 <= k < 4 ==> |NatToDecimal(a[k])| <= 3
  {
    forall k | 0 <= k < 4 ensures |NatToDecimal(a[k])| <= 3 {
      var n := a[k];
      if n >= 10 {
        assert |NatToDecimal(n / 10)| <= 2 by {
          if n / 10 >= 10 { assert NatToDecimal(n / 10) == NatToDecimal(n / 100) + [DigitChar(n / 10 % 10)]; }
        }
      }
    }
  }

  // ------------------------------------------------------------------
  // Escaped payload text
  // ------------------------------------------------------------------

  /** How many hex digits `sscanf(str, "%02x", ...)` takes at the front of
    * `s`: at most two. The model reads digits only, so a text that does not
    * start with a hex digit gives none; the blanks and the sign `%02x`
    * would accept first are not modelled. */
  function HexDigits(s: string): (n: nat)
    ensures n <= 2 && n <= |s|
    ensures forall k :: 0 <= k < n ==> DigitValue(s[k]) < 16
    ensures n < 2 && n < |s| ==> DigitValue(s[n]) >= 16
  {
    if |s| > 0 && DigitValue(s[0]) < 16 then
      (if |s| > 1 && DigitValue(s[1]) < 16 then 2 else 1)
    else 0
  }

  /** The byte those digits stand for. */
  function HexValue(s: string): (v: nat)
    requires HexDigits(s) > 0
    ensures v < 256
  {
    if HexDigits(s) == 2 then DigitValue(s[0]) * 16 + DigitValue(s[1]) else DigitValue(s[0])
  }

  /** The text that `copy_printable` writes for `s`, or None (NULL) for an
    * escape it does not know: `\n`, `\r`, `\t`, `\0`, `\\` and `\x` with
    * one or two hex digits stand for one character each, any other
    * character for itself. */
  function Unescape(s: string): (r: Option<string>)
    ensures r.Some? ==> |r.value| <= |s|
    decreases |s|
  {
    if s == [] then Some([])
    else if s[0] != '\\' then Prefixed(s[0], Unescape(s[1..]))
    else if |s| == 1 then None
    else if s[1] == 'n' then Prefixed('\n', Unescape(s[2..]))
    else if s[1] == 'r' then Prefixed('\r', Unescape(s[2..]))
    else if s[1] == 't' then Prefixed('\t', Unescape(s[2..]))
    else if s[1] == '0' then Prefixed('\0', Unescape(s[2..]))
    else if s[1] == '\\' then Prefixed('\\', Unescape(s[2..]))
    else if s[1] == 'x' && HexDigits(s[2..]) > 0 then
      Prefixed(HexValue(s[2..]) as char, Unescape(s[2 + HexDigits(s[2..])..]))
    else None
  }

  function Prefixed(c: char, d: Option<string>): (r: Option<string>)
    ensures r.Some? <==> d.Some?
    ensures r.Some? ==> r.value == [c] + d.value
  {
    if d.None? then None else Some([c] + d.value)
  }

  /** `copy_printable` as written: after `\x` it steps over two characters
    * whatever `sscanf` read, so a single hex digit swallows the character
    * after it (and at the end of the text, the terminator). Past the end is
    * modelled as the end. */
  function UnescapeAsWritten(s: string): (r: Option<string>)
    ensures r.Some? ==> |r.value| <= |s|
    decreases |s|
  {
    if s == [] then Some([])
    else if s[0] != '\\' then Prefixed(s[0], UnescapeAsWritten(s[1..]))
    else if |s| == 1 then None
    else if s[1] == 'n' then Prefixed('\n', UnescapeAsWritten(s[2..]))
    else if s[1] == 'r' then Prefixed('\r', UnescapeAsWritten(s[2..]))
    else if s[1] == 't' then Prefixed('\t', UnescapeAsWritten(s[2..]))
    else if s[1] == '0' then Prefixed('\0', UnescapeAsWritten(s[2..]))
    else if s[1] == '\\' then Prefixed('\\', UnescapeAsWritten(s[2..]))
    else if s[1] == 'x' && HexDigits(s[2..]) > 0 then
      Prefixed(HexValue(s[2..]) as char, if |s| < 4 then Some([]) else UnescapeAsWritten(s[4..]))
    else None
  }

  /** `\x4z` loses its `z` as written; the corrected decoding keeps it. */
  lemma SingleHexDigitSwallows()
    ensures UnescapeAsWritten("\\x4z") == Some(['\U{0004}'])
    ensures Unescape("\\x4z") == Some(['\U{0004}', 'z'])
  {
    var s := "\\x4z";
    var e: string := [];
    assert s[2..] == "4z" && HexDigits("4z") == 1 && HexValue("4z") == 4;
    assert "z"[1..] == e && s[3..] == "z" && s[4..] == e;
    assert Unescape(e) == Some(e) && UnescapeAsWritten(e) == Some(e);
    assert Unescape("z") == Prefixed('z', Unescape(e));
    assert Unescape(s) == Prefixed('\U{0004}', Unescape("z"));
    assert UnescapeAsWritten(s) == Prefixed('\U{0004}', UnescapeAsWritten(e));
    assert Unescape("z").value == ['z'];
    assert Unescape(s).value == ['\U{0004}', 'z'];
    assert UnescapeAsWritten(s).value == ['\U{0004}'];
  }

  /** `copy_printable(dst, str)`: decodes `str` into a fresh buffer and
    * returns what it wrote (the text up to the returned end pointer), or
    * None when an escape is unknown. A `\x` escape continues after the hex
    * digits that were read. */
  method CopyPrintable(str: string) returns (r: Option<string>)
    ensures r == Unescape(str)
  {
    var dst: string := [];
    var i := 0;
    assert str[0..] == str;
    while i < |str|
      invariant i <= |str|
      invariant Unescape(str).Some? <==> Unescape(str[i..]).Some?
      invariant Unescape(str).Some? ==> Unescape(str).value == dst + Unescape(str[i..]).value
    {
      var ok, c, next := DecodeOne(str, i);
      if !ok {
        return None;
      }
      ghost var rest := Unescape(str[next..]);
      assert rest.Some? ==> dst + ([c] + rest.value) == (dst + [c]) + rest.value;
      dst := dst + [c];
      i := next;
    }
    ghost var e: string := [];
    assert str[i..] == e && Unescape(e) == Some(e) && dst + e == dst;
    r := Some(dst);
  }

  /** One pass of the loop of `copy_printable`: the character written for
    * the character or escape at `i`, and where the next one starts. */
  method DecodeOne(str: string, i: nat) returns (ok: bool, c: char, next: nat)
    requires i < |str|
    ensures ok ==> i < next <= |str| && Unescape(str[i..]) == Prefixed(c, Unescape(str[next..]))
    ensures !ok ==> Unescape(str[i..]) == None
  {
    var t := str[i..];
    if str[i] != '\\' {
      assert t[1..] == str[i + 1..];
      return true, str[i], i + 1;
    }
    if i + 1 == |str| {
      return false, ' ', 0;
    }
    assert t[2..] == str[i + 2..];
    if str[i + 1] == 'x' {
      var h := HexDigits(str[i + 2..]);
      if h == 0 {
        return false, ' ', 0;
      }
      assert t[2 + h..] == str[i + 2 + h..];
      return true, HexValue(str[i + 2..]) as char, i + 2 + h;
    }
    var e := EscapedChar(str[i + 1]);
    if e.None? {
      return false, ' ', 0;
    }
    return true, e.value, i + 2;
  }

  /** The character a simple escape `\c` stands for. */
  function EscapedChar(c: char): (r: Option<char>)
    ensures r.Some? <==> c in "nrt0\\"
  {
    if c == 'n' then Some('\n')
    else if c == 'r' then Some('\r')
    else if c == 't' then Some('\t')
    else if c == '0' then Some('\0')
    else if c == '\\' then Some('\\')
    else None
  }

  /** What has been written, followed by what the rest decodes to. */
  function After(done: string, rest: Option<string>): (r: Option<string>)
    ensures r.Some? <==> rest.Some?
    ensures r.Some? ==> r.value == done + rest.value
  {
    if rest.None? then None else Some(done + rest.value)
  }

  /** An escape sequence for any character: the five with simple escapes
    * get them, every other character stands for itself. */
  function Escape(t: string): (s: string)
    decreases |t|
  {
    if t == [] then []
    else EscapeChar(t[0]) + Escape(t[1..])
  }

  function EscapeChar(c: char): (s: string)
    ensures 1 <= |s| <= 2
  {
    if c == '\n' then "\\n"
    else if c == '\r' then "\\r"
    else if c == '\t' then "\\t"
    else if c == '\0' then "\\0"
    else if c == '\\' then "\\\\"
    else [c]
  }

  /** Escaped text decodes back to the original. */
  lemma {:induction false} UnescapeEscape(t: string)
    ensures Unescape(Escape(t)) == Some(t)
    decreases |t|
  {
    if t != [] {
      var e := EscapeChar(t[0]);
      var rest := Escape(t[1..]);
      var s := e + rest;
      UnescapeEscape(t[1..]);
      assert s[|e|..] == rest;
      assert t == [t[0]] + t[1..];
      if |e| == 1 {
        assert s[0] == t[0] != '\\';
        assert s[1..] == rest;
      } else {
        assert s[0] == '\\' && s[2..] == rest;
      }
    }
  }

  /** Every argument decodes. */
  predicate Decodes(data: seq<string>)
  {
    forall k :: 0 <= k < |data| ==> Unescape(data[k]).Some?
  }

  /** The payload the arguments after `DATA` make: each decoded, with one
    * blank between neighbours. */
  function Payload(data: seq<string>): (p: string)
    requires Decodes(data)
    decreases |data|
  {
    if |data| == 0 then []
    else if |data| == 1 then Unescape(data[0]).value
    else Payload(data[..|data| - 1]) + " " + Unescape(data[|data| - 1]).value
  }

  /** The payload of one argument more. */
  lemma PayloadStep(data: seq<string>, i: nat)
    requires i < |data| && Decodes(data[..i]) && Unescape(data[i]).Some?
    ensures Decodes(data[..i + 1])
    ensures Payload(data[..i + 1]) == if i == 0 then Unescape(data[0]).value else Payload(data[..i]) + " " + Unescape(data[i]).value
  {
    assert data[..i + 1][..i] == data[..i];
    assert forall k :: 0 <= k <= i ==> data[..i + 1][k] == data[k];
  }

  /** `gen_ip_data_length(datanum, data)`: the length of the payload the
    * arguments make, or -1 when one of them does not decode. */
  method GenIpDataLength(data: seq<string>) returns (r: int)
    ensures r == -1 <==> !Decodes(data)
    ensures r != -1 ==> r == |Payload(data)|
  {
    var len := 0;
    var i := 0;
    while i < |data|
      invariant i <= |data| && Decodes(data[..i]) && len == |Payload(data[..i])|
    {
      var p := CopyPrintable(data[i]);
      if p.None? {
        return -1;
      }
      PayloadStep(data, i);
      len := len + |p.value|;
      if i > 0 {
        len := len + 1;
      }
      i := i + 1;
    }
    assert data[..i] == data;
    return len;
  }

  /** The `DATA` loop of `parse_udp` and `parse_tcp`: each argument decoded
    * into the packet, a blank written after every one but the last; None
    * (-1) when one does not decode. */
  method CopyData(data: seq<string>) returns (r: Option<string>)
    ensures r.Some? <==> Decodes(data)
    ensures r.Some? ==> r.value == Payload(data)
  {
    var out: string := [];
    var i := 0;
    while i < |data|
      invariant i <= |data| && Decodes(data[..i])
      invariant out == Payload(data[..i]) + (if 0 < i < |data| then " " else "")
    {
      var p := CopyPrintable(data[i]);
      if p.None? {
        return None;
      }
      PayloadStep(data, i);
      out := out + p.value;
      if i + 1 < |data| {
        out := out + " ";
      }
      i := i + 1;
    }
    assert data[..i] == data;
    return Some(out);
  }

  // ------------------------------------------------------------------
  // TCP flags
  // ------------------------------------------------------------------

  /** The TCP control bits (section 3.1 of RFC 793) and the two ECN bits
    * (section 6.1 of RFC 3168) that `parse_flags` sets. */
  datatype Flag = SYN | ACK | RST | FIN | CWR | ECE | PSH | URG

  function FlagName(f: Flag): (s: string)
    ensures |s| == 3 && '/' !in s
  {
    match f
    case SYN => "SYN" case ACK => "ACK" case RST => "RST" case FIN => "FIN"
    case CWR => "CWR" case ECE => "ECE" case PSH => "PSH" case URG => "URG"
  }

  /** The flags in the order `parse_flags` tries their names. */
  const FlagOrder: seq<Flag> := [SYN, ACK, RST, FIN, CWR, ECE, PSH, URG]

  /** The flag whose name the text at `p` starts with, tried in that order. */
  function FlagAt(s: string, p: nat): (r: Option<Flag>)
    requires p <= |s|
    ensures r.Some? ==> StartsWith(s[p..], FlagName(r.value))
    ensures r.None? ==> forall f: Flag :: !StartsWith(s[p..], FlagName(f))
  {
    var t := s[p..];
    if StartsWith(t, "SYN") then Some(SYN)
    else if StartsWith(t, "ACK") then Some(ACK)
    else if StartsWith(t, "RST") then Some(RST)
    else if StartsWith(t, "FIN") then Some(FIN)
    else if StartsWith(t, "CWR") then Some(CWR)
    else if StartsWith(t, "ECE") then Some(ECE)
    else if StartsWith(t, "PSH") then Some(PSH)
    else if StartsWith(t, "URG") then Some(URG)
    else None
  }

  /** The flag a whole name stands for. */
  function FlagNamed(name: string): (r: Option<Flag>)
    ensures r.Some? ==> FlagName(r.value) == name
    ensures r.None? ==> forall f: Flag :: FlagName(f) != name
  {
    if |name| == 3 then FlagAt(name, 0) else None
  }

  /** The flags a list of names sets on top of `acc`; None for an unknown
    * name. */
  function FlagsFrom(names: seq<string>, acc: set<Flag>): (r: Option<set<Flag>>)
    decreases |names|
  {
    if names == [] then Some(acc)
    else match FlagNamed(names[0])
      case None => None
      case Some(f) => FlagsFrom(names[1..], acc + {f})
  }

  /** The flags `parse_flags` sets for the text `s`: none for `NONE`,
    * otherwise those named by its `/`-separated fields, each of which must
    * be a flag name. None when it returns 1. */
  function FlagsOf(s: string): (r: Option<set<Flag>>)
  {
    if s == "NONE" then Some({}) else FlagsFrom(Fields(s, '/'), {})
  }

  /** The first field of a text is what comes before its first separator. */
  lemma FirstField(t: string, sep: char)
    ensures StrChr(t, sep, 0).None? ==> Fields(t, sep)[0] == t
    ensures StrChr(t, sep, 0).Some? ==> Fields(t, sep)[0] == t[..StrChr(t, sep, 0).value]
  {
  }

  /** `parse_flags(string, tcph)`: the flags set, or None when it returns 1.
    * Each round of the loop reads one name and goes on past a `/`; what
    * stops the loop must be the end of the text. */
  method ParseFlags(s: string) returns (r: Option<set<Flag>>)
    ensures r == FlagsOf(s)
  {
    if s == "NONE" {
      return Some({});
    }
    var flags: set<Flag> := {};
    var p := 0;
    assert s[0..] == s;
    while true
      invariant p <= |s|
      invariant FlagsOf(s) == FlagsFrom(Fields(s[p..], '/'), flags)
      decreases |s| - p
    {
      var done, res, p', flags' := NextFlag(s, p, flags);
      if done {
        return res;
      }
      p, flags := p', flags';
    }
  }

  /** One round of the loop of `parse_flags`: the name at `p`, then either
    * the position after the `/` that follows it, or the outcome. */
  method NextFlag(s: string, p: nat, flags: set<Flag>) returns (done: bool, r: Option<set<Flag>>, p': nat, flags': set<Flag>)
    requires p <= |s|
    ensures done ==> r == FlagsFrom(Fields(s[p..], '/'), flags)
    ensures !done ==> p < p' <= |s| && FlagsFrom(Fields(s[p..], '/'), flags) == FlagsFrom(Fields(s[p'..], '/'), flags')
  {
    var f := FlagAt(s, p);
    if f.None? {
      NoFlagHere(s[p..]);
      return true, None, p, flags;
    }
    var t := s[p..];
    var name := FlagName(f.value);
    assert t[..3] == name;
    assert FlagNamed(name) == Some(f.value);
    flags' := flags + {f.value};
    if p + 3 < |s| && s[p + 3] == '/' {
      assert t == name + ['/'] + s[p + 4..];
      FieldsJoin(name, '/', s[p + 4..]);
      return false, None, p + 4, flags';
    } else if p + 3 < |s| {
      LongField(t, name);
      return true, None, p, flags;
    } else {
      assert t == name;
      FieldsSingle(name, '/');
      assert [name][1..] == [];
      return true, Some(flags'), p, flags';
    }
  }

  /** No flag name starts the text: its first field is none. */
  lemma NoFlagHere(t: string)
    requires forall f: Flag :: !StartsWith(t, FlagName(f))
    ensures FlagsFrom(Fields(t, '/'), {}) == None
    ensures forall acc :: FlagsFrom(Fields(t, '/'), acc) == None
  {
    FirstField(t, '/');
    var x := Fields(t, '/')[0];
    forall f: Flag
      ensures FlagName(f) != x
    {
      if |x| == 3 {
        assert t[..3] == x;
      }
    }
  }

  /** A flag name followed by something other than `/`: the first field is
    * longer than any name. */
  lemma LongField(t: string, name: string)
    requires |name| == 3 && '/' !in name && 3 < |t| && t[..3] == name && t[3] != '/'
    ensures forall acc :: FlagsFrom(Fields(t, '/'), acc) == None
  {
    FirstField(t, '/');
    var x := Fields(t, '/')[0];
    assert forall k :: 0 <= k < 3 ==> t[k] == name[k];
    match StrChr(t, '/', 0)
    case None =>
    case Some(q) =>
      assert q > 3;
    assert |x| > 3;
  }

  /** Pieces joined by a separator. */
  function Joined(names: seq<string>, sep: char): (s: string)
    requires |names| >= 1
    decreases |names|
  {
    if |names| == 1 then names[0] else names[0] + [sep] + Joined(names[1..], sep)
  }

  /** Pieces without the separator, joined by it, split back into
    * themselves. */
  lemma {:induction false} FieldsOfJoined(names: seq<string>, sep: char)
    requires |names| >= 1 && forall k :: 0 <= k < |names| ==> sep !in names[k]
    ensures Fields(Joined(names, sep), sep) == names
    decreases |names|
  {
    if |names| == 1 {
      FieldsSingle(names[0], sep);
    } else {
      FieldsOfJoined(names[1..], sep);
      FieldsJoin(names[0], sep, Joined(names[1..], sep));
      assert names == [names[0]] + names[1..];
    }
  }

  /** The names of the flags of `fs`, in the order of `order`. */
  function NamesIn(order: seq<Flag>, fs: set<Flag>): (names: seq<string>)
    ensures forall k :: 0 <= k < |names| ==> '/' !in names[k] && FlagNamed(names[k]).Some?
    ensures fs != {} && (forall f :: f in fs ==> f in order) ==> names != []
    decreases |order|
  {
    if order == [] then []
    else (if order[0] in fs then [FlagName(order[0])] else []) + NamesIn(order[1..], fs)
  }

  /** The flags written as `parse_flags` reads them: `NONE` for none,
    * otherwise their names in order, joined by `/`. */
  function FlagsText(fs: set<Flag>): (s: string)
  {
    if fs == {} then "NONE"
    else
      AllFlagsOrdered(fs);
      Joined(NamesIn(FlagOrder, fs), '/')
  }

  lemma FlagNamedName(f: Flag)
    ensures FlagNamed(FlagName(f)) == Some(f)
  {
  }

  /** The names of `fs` in some order set exactly the flags of `fs` that
    * the order lists. */
  lemma {:induction false} FlagsFromNames(order: seq<Flag>, fs: set<Flag>, acc: set<Flag>)
    ensures FlagsFrom(NamesIn(order, fs), acc) == Some(acc + (set f | f in order && f in fs))
    decreases |order|
  {
    var all := set f | f in order && f in fs;
    if order == [] {
      assert NamesIn(order, fs) == [];
      assert all == {};
      assert acc + all == acc;
    } else {
      var names := NamesIn(order, fs);
      var rest := NamesIn(order[1..], fs);
      var g := order[0];
      var later := set f | f in order[1..] && f in fs;
      assert all == (if g in fs then {g} else {}) + later by {
        assert order == [g] + order[1..];
      }
      FlagNamedName(g);
      if g in fs {
        assert names == [FlagName(g)] + rest;
        assert names[1..] == rest;
        FlagsFromNames(order[1..], fs, acc + {g});
        assert acc + {g} + later == acc + all;
      } else {
        assert names == rest;
        FlagsFromNames(order[1..], fs, acc);
        assert acc + later == acc + all;
      }
    }
  }

  /** Every flag is in the order `parse_flags` tries them. */
  lemma AllFlagsOrdered(fs: set<Flag>)
    ensures (set f | f in FlagOrder && f in fs) == fs
    ensures forall f :: f in fs ==> f in FlagOrder
  {
    forall f | f in fs ensures f in FlagOrder {
      match f
      case SYN => assert FlagOrder[0] == f;
      case ACK => assert FlagOrder[1] == f;
      case RST => assert FlagOrder[2] == f;
      case FIN => assert FlagOrder[3] == f;
      case CWR => assert FlagOrder[4] == f;
      case ECE => assert FlagOrder[5] == f;
      case PSH => assert FlagOrder[6] == f;
      case URG => assert FlagOrder[7] == f;
    }
  }

  /** Written flags read back as themselves. */
  lemma FlagsRoundTrip(fs: set<Flag>)
    ensures FlagsOf(FlagsText(fs)) == Some(fs)
  {
    if fs != {} {
      AllFlagsOrdered(fs);
      NamesRoundTrip(FlagOrder, fs);
    }
  }

  /** The names of some flags, in an order that lists them all, read back
    * as those flags. */
  lemma NamesRoundTrip(order: seq<Flag>, fs: set<Flag>)
    requires fs != {} && (set f | f in order && f in fs) == fs
    ensures |NamesIn(order, fs)| >= 1
    ensures FlagsOf(Joined(NamesIn(order, fs), '/')) == Some(fs)
  {
    var names := NamesIn(order, fs);
    FlagsFromNames(order, fs, {});
    assert {} + fs == fs;
    assert names != [];
    FieldsOfJoined(names, '/');
    NotNone(names);
  }

  /** Names joined by `/` are never the word `NONE`. */
  lemma NotNone(names: seq<string>)
    requires |names| >= 1 && FlagNamed(names[0]).Some?
    ensures Joined(names, '/') != "NONE"
  {
    var f := FlagNamed(names[0]).value;
    assert Joined(names, '/')[0] == names[0][0] == FlagName(f)[0];
    assert FlagName(f)[0] != 'N' by {
      match f
      case SYN => case ACK => case RST => case FIN =>
      case CWR => case ECE => case PSH => case URG =>
    }
  }

  // ------------------------------------------------------------------
  // TCP options
  // ------------------------------------------------------------------

  /** The non-empty pieces, in order. */
  function NonEmpty(fs: seq<string>): (r: seq<string>)
    ensures forall k :: 0 <= k < |r| ==> r[k] != []
    ensures |r| <= |fs|
    decreases |fs|
  {
    if fs == [] then [] else (if fs[0] == [] then [] else [fs[0]]) + NonEmpty(fs[1..])
  }

  /** What successive `strtok(..., sep)` calls return: the non-empty runs
    * between separators. */
  function Tokens(s: string, sep: char): (r: seq<string>)
  {
    NonEmpty(Fields(s, sep))
  }

  /** The room for options in a TCP header: 15 words less the 20 bytes of
    * the fixed part (section 3.1 of RFC 793). */
  const MAX_OPTION_BYTES: nat := 15 * 4 - 20

  /** The options bytes and the data offset `parse_tcp_options` sets. */
  datatype TcpOptions = TcpOptions(doff: nat, bytes: seq<nat>)

  /** Each token read with `atol` and stored in a `u_int8_t`. */
  function OptionBytes(toks: seq<string>): (r: seq<nat>)
    ensures |r| == |toks| && forall k :: 0 <= k < |r| ==> r[k] < U8
  {
    seq(|toks|, k requires 0 <= k < |toks| => Wrap(Atol(toks[k]), U8))
  }

  /** `parse_tcp_options(opts, tcph)`: at most 40 comma-separated numbers,
    * a multiple of four of them, as the option bytes; the data offset then
    * counts the header in 32-bit words. None when it returns 1. */
  method ParseTcpOptions(opts: string) returns (r: Option<TcpOptions>)
    ensures r.Some? <==> |Tokens(opts, ',')| <= MAX_OPTION_BYTES && |Tokens(opts, ',')| % 4 == 0
    ensures r.Some? ==> r.value.bytes == OptionBytes(Tokens(opts, ','))
    ensures r.Some? ==> r.value.doff * 4 == 20 + |r.value.bytes| && 5 <= r.value.doff <= 15
  {
    var toks := Tokens(opts, ',');
    var options: seq<nat> := [];
    var i := 0;
    while i < |toks| && i < MAX_OPTION_BYTES
      invariant i <= |toks| && i <= MAX_OPTION_BYTES
      invariant |options| == i && forall k :: 0 <= k < i ==> options[k] == OptionBytes(toks)[k]
    {
      options := options + [Wrap(Atol(toks[i]), U8)];
      i := i + 1;
    }
    if i < |toks| {
      return None;
    }
    if i % 4 != 0 {
      return None;
    }
    assert options == OptionBytes(toks);
    r := Some(TcpOptions((20 + i) / 4, options));
  }

  /** Option bytes written in decimal and joined by commas. */
  function OptionsText(bytes: seq<nat>): (s: string)
    requires |bytes| >= 1
  {
    Joined(seq(|bytes|, k requires 0 <= k < |bytes| => NatToDecimal(bytes[k])), ',')
  }

  /** The text of some bytes splits into their numerals and reads back as
    * the bytes. */
  lemma OptionsRoundTrip(bytes: seq<nat>)
    requires |bytes| >= 1 && forall k :: 0 <= k < |bytes| ==> bytes[k] < U8
    ensures OptionBytes(Tokens(OptionsText(bytes), ',')) == bytes
  {
    var ds := seq(|bytes|, k requires 0 <= k < |bytes| => NatToDecimal(bytes[k]));
    forall k | 0 <= k < |ds| ensures ',' !in ds[k] && ds[k] != [] {
      assert forall j :: 0 <= j < |ds[k]| ==> IsDigit(ds[k][j]);
    }
    FieldsOfJoined(ds, ',');
    NonEmptyKeeps(ds);
    forall k | 0 <= k < |bytes| ensures Wrap(Atol(ds[k]), U8) == bytes[k] {
      StrToLDecimal(bytes[k], "");
      assert IntToDecimal(bytes[k]) + "" == ds[k];
    }
  }

  /** Without empty pieces, nothing is dropped. */
  lemma {:induction false} NonEmptyKeeps(fs: seq<string>)
    requires forall k :: 0 <= k < |fs| ==> fs[k] != []
    ensures NonEmpty(fs) == fs
    decreases |fs|
  {
    if fs != [] {
      NonEmptyKeeps(fs[1..]);
      assert fs == [fs[0]] + fs[1..];
    }
  }

  // ------------------------------------------------------------------
  // Sequence numbers
  // ------------------------------------------------------------------

  /** `parse_tcpnumber` as written: `i` is unsigned, so its `i < 0` test
    * never fires and every text is accepted, a text that is no number as
    * `(unsigned) -1`. */
  function ParseTcpNumberAsWritten(s: string): (r: Option<nat>)
    ensures r.Some? && r.value < U32
    ensures Converts(s) ==> r.value == Wrap(StrToUL(s, 0).value, U32)
    ensures !Converts(s) ==> r.value == BAD_NUMBER
  {
    Some(StringToNumber(s, 0, U32 - 1))
  }

  /** `parse_tcpnumber` with the failure test it evidently intends, the one
    * the other callers of `string_to_number` make: the value of a text
    * that converts as a whole to anything but `(unsigned) -1`. */
  function ParseTcpNumber(s: string): (r: Option<nat>)
    ensures r.Some? <==> Converts(s) && Wrap(StrToUL(s, 0).value, U32) != BAD_NUMBER
    ensures r.Some? ==> r.value == Wrap(StrToUL(s, 0).value, U32)
  {
    var n := StringToNumber(s, 0, U32 - 1);
    if n == BAD_NUMBER then None else Some(n)
  }

  /** A sequence number that is no number is taken as 0xffffffff as
    * written, and refused with the intended test. */
  lemma TcpNumberJunkAccepted()
    ensures ParseTcpNumberAsWritten("SYN") == Some(0xffff_ffff)
    ensures ParseTcpNumber("SYN") == None
  {
    LetterIsNoNumber("SYN");
  }

  /** A sequence number printed in decimal reads back as itself. */
  lemma TcpNumberRoundTrip(n: nat)
    requires n < BAD_NUMBER
    ensures ParseTcpNumber(NatToDecimal(n)) == Some(n)
  {
    StringToNumberReadsDecimal(n, 0, U32 - 1);
  }

  // ------------------------------------------------------------------
  // MAC addresses
  // ------------------------------------------------------------------

  /** Octets in an Ethernet address. */
  const ETH_ALEN: nat := 6

  /** Group `k` of a MAC text as `parse_mac` reads it: `strtol` in base 16
    * from `3 * k` must stop exactly two characters later with a value from
    * 0 to 255; -1 for anything else. */
  function MacGroup(s: string, k: nat): (v: int)
    requires 3 * k <= |s|
    ensures -1 <= v < 256
  {
    var c := StrToL(s[3 * k..], 16);
    if c.end == 2 && 0 <= c.value <= 255 then c.value else -1
  }

  /** The address `parse_mac` reads from `s`: 17 characters whose six
    * groups all read. The characters between the groups are not looked
    * at. */
  function MacOf(s: string): (r: Option<seq<nat>>)
    ensures r.Some? ==> |r.value| == ETH_ALEN && forall k :: 0 <= k < ETH_ALEN ==> r.value[k] < 256
  {
    if |s| != ETH_ALEN * 3 - 1 then None
    else if forall k :: 0 <= k < ETH_ALEN ==> MacGroup(s, k) >= 0 then
      Some(seq(ETH_ALEN, k requires 0 <= k < ETH_ALEN => MacGroup(s, k) as nat))
    else None
  }

  /** `parse_mac(str, mac)`: the six octets, or None where it returns 0. */
  method ParseMac(s: string) returns (r: Option<seq<nat>>)
    ensures r == MacOf(s)
  {
    if |s| != ETH_ALEN * 3 - 1 {
      return None;
    }
    var mac: seq<nat> := [];
    var i := 0;
    while i < ETH_ALEN
      invariant i <= ETH_ALEN && |mac| == i
      invariant forall k :: 0 <= k < i ==> MacGroup(s, k) >= 0 && mac[k] == MacGroup(s, k)
    {
      var c := StrToL(s[3 * i..], 16);
      if !(c.end == 2 && 0 <= c.value <= 255) {
        assert MacGroup(s, i) < 0;
        return None;
      }
      mac := mac + [c.value];
      i := i + 1;
    }
    assert mac == seq(ETH_ALEN, k requires 0 <= k < ETH_ALEN => MacGroup(s, k) as nat);
    r := Some(mac);
  }

  /** The lower-case hex digit for `d`. */
  function HexDigitChar(d: nat): (c: char)
    requires d < 16
    ensures DigitValue(c) == d && !IsSpace(c) && c != '+' && c != '-' && c != 'x' && c != 'X'
  {
    if d < 10 then ('0' as int + d) as char else ('a' as int + d - 10) as char
  }

  /** An address written as six two-digit hex groups joined by `:`. */
  function MacText(m: seq<nat>): (s: string)
    requires |m| == ETH_ALEN && forall k :: 0 <= k < ETH_ALEN ==> m[k] < 256
    ensures |s| == 17
  {
    seq(17, j requires 0 <= j < 17 =>
      if j % 3 == 2 then ':'
      else if j % 3 == 0 then HexDigitChar(m[j / 3] / 16)
      else HexDigitChar(m[j / 3] % 16))
  }

  /** Two hex digits followed by `:` or the end read as their value. */
  lemma HexPairReads(t: string, v: nat)
    requires v < 256 && 2 <= |t| && t[0] == HexDigitChar(v / 16) && t[1] == HexDigitChar(v % 16)
    requires |t| == 2 || t[2] == ':'
    ensures StrToL(t, 16) == Conversion(v, 2)
  {
    assert SkipSpaces(t, 0) == 0;
    assert !HexPrefixAt(t, 0);
    DigitsEndOfRun(t, 0, 2, 16);
    var d := t[0..2];
    var d1 := [t[0]];
    var e: string := [];
    assert d[..|d| - 1] == d1 && d1[..|d1| - 1] == e && d[|d| - 1] == t[1];
    assert ValueOf(d1, 16) == DigitValue(t[0]);
    assert ValueOf(d, 16) == DigitValue(t[0]) * 16 + DigitValue(t[1]);
    assert ScanInteger(t, 16) == Some(Scan(false, v, 2));
  }

  /** A written address reads back as itself. */
  lemma MacRoundTrip(m: seq<nat>)
    requires |m| == ETH_ALEN && forall k :: 0 <= k < ETH_ALEN ==> m[k] < 256
    ensures MacOf(MacText(m)) == Some(m)
  {
    var s := MacText(m);
    forall k | 0 <= k < ETH_ALEN
      ensures MacGroup(s, k) == m[k]
    {
      var t := s[3 * k..];
      assert t[0] == s[3 * k] && t[1] == s[3 * k + 1];
      assert |t| > 2 ==> t[2] == s[3 * k + 2];
      HexPairReads(t, m[k]);
    }
    assert MacOf(s).value == m;
  }
}
