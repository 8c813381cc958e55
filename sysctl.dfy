/**
 * The sysctl files under `/proc/sys`: the permission check on the owner's
 * mode bits, the read/write dispatch to a table's handler, the handlers for
 * vectors of `int`s (printed and parsed as text, with optional bounds), and
 * the binary-interface check `sysctl_intvec`.
 */
module Sysctl {
  import opened Wrappers
  import opened CInt
  import opened CLib
  import KernelEnv
  import Wire

  // ------------------------------------------------------------------
  // Permissions and dispatch
  // ------------------------------------------------------------------

  /** `test_perm`: `op` is granted when its bits lie within `0007` and are
    * all among the owner's bits `mode >> 6`. */
  function TestPerm(mode: bv32, op: bv32): (r: int)
    ensures r == 0 || r == -Wire.EACCES
    ensures r == 0 <==> op & 7 == op && (mode >> 6) & op == op
  {
    if (mode >> 6) & op & 7 == op then 0 else -Wire.EACCES
  }

  /** Reading is granted by the owner's read bit (0400), writing by the
    * owner's write bit (0200); nothing else in the mode matters. */
  lemma PermIsOwnerBit(mode: bv32)
    ensures TestPerm(mode, 4) == 0 <==> mode & 0x100 != 0
    ensures TestPerm(mode, 2) == 0 <==> mode & 0x80 != 0
  {
  }

  /** A handler's outcome: an error code (0 for none) and the count it left
    * in `*lenp`. */
  datatype Handled = Handled(error: int, res: nat)

  /** `do_rw_proc`. `table` is None when the file has no table (or no
    * entry); `hasHandler` says whether the table names a handler, and
    * `handled` is what that handler does when called with `*lenp == count`. */
  function DoRwProc(write: bool, table: Option<bv32>, hasHandler: bool, count: nat, handled: Handled): (r: int)
    ensures table.None? || !hasHandler ==> r == -Wire.ENOTDIR
    ensures table.Some? && hasHandler ==>
      r == if TestPerm(table.value, if write then 2 else 4) != 0 then -Wire.EPERM
           else if handled.error != 0 then handled.error else handled.res
  {
    if table.None? || !hasHandler then -Wire.ENOTDIR
    else
      var op: bv32 := if write then 2 else 4;
      if TestPerm(table.value, op) != 0 then -Wire.EPERM
      else if handled.error != 0 then handled.error
      else handled.res
  }

  /** A file without a table or without a handler answers -ENOTDIR. A table
    * without the owner's write bit refuses every write with -EPERM,
    * whatever its handler would do; with the bit, the handler's outcome is
    * returned. The same holds for reads and the read bit. */
  lemma RwProcOwnerBits(write: bool, mode: bv32, count: nat, handled: Handled)
    ensures forall hasHandler: bool :: DoRwProc(write, None, hasHandler, count, handled) == -Wire.ENOTDIR
    ensures DoRwProc(write, Some(mode), false, count, handled) == -Wire.ENOTDIR
    ensures write ==> (DoRwProc(write, Some(mode), true, count, handled) == -Wire.EPERM <==>
      mode & 0x80 == 0 || handled.error == -Wire.EPERM)
    ensures !write ==> (DoRwProc(write, Some(mode), true, count, handled) == -Wire.EPERM <==>
      mode & 0x100 == 0 || handled.error == -Wire.EPERM)
    ensures mode & (if write then 0x80 else 0x100) != 0 ==>
      DoRwProc(write, Some(mode), true, count, handled) == if handled.error != 0 then handled.error else handled.res
  {
    PermIsOwnerBit(mode);
  }

  // ------------------------------------------------------------------
  // Conversions between text and stored ints
  // ------------------------------------------------------------------

  predicate Int32s(vals: seq<int>)
  {
    forall k :: 0 <= k < |vals| ==> IsInt32(vals[k])
  }

  /** The `int` an unsigned or wider value is converted to: its low 32 bits
    * in two's complement. */
  function Int32Of(x: int): (r: int)
    ensures IsInt32(r) && (IsInt32(x) ==> r == x)
  {
    ToInt32(Wrap(x, U32))
  }

  /** `neg ? -m : m` */
  function Signed(neg: bool, m: nat): int
  {
    if neg then -(m as int) else m
  }

  /** The conversion a handler applies: `do_proc_dointvec_conv`,
    * `do_proc_dointvec_jiffies_conv`, or `do_proc_dointvec_minmax_conv`
    * with the bounds `extra1` and `extra2` point at (None for NULL). */
  datatype Conv = PlainConv | JiffiesConv | MinMaxConv(min: Option<int>, max: Option<int>)

  /** The value a write stores from a parsed sign and magnitude; None when
    * the conversion refuses it (-EINVAL), leaving `*valp` as it was. */
  function ConvWrite(conv: Conv, neg: bool, lval: nat): (r: Option<int>)
    ensures r.Some? ==> IsInt32(r.value)
    ensures !conv.MinMaxConv? ==> r.Some?
    ensures conv.PlainConv? && lval <= INT_MAX ==> r == Some(Signed(neg, lval))
    ensures conv.JiffiesConv? && lval * KernelEnv.HZ <= INT_MAX ==>
      r == Some(Signed(neg, lval * KernelEnv.HZ))
    ensures conv.MinMaxConv? ==>
      (r.None? <==> !WithinBounds(conv.min, conv.max, Int32Of(Signed(neg, lval))))
    ensures conv.MinMaxConv? && r.Some? ==> r.value == Int32Of(Signed(neg, lval))
  {
    match conv
    case PlainConv => Some(Int32Of(Signed(neg, lval)))
    case JiffiesConv =>
      Some(Int32Of(Signed(neg, lval * KernelEnv.HZ)))
    case MinMaxConv(min, max) =>
      var v := Int32Of(Signed(neg, lval));
      if (min.Some? && min.value > v) || (max.Some? && max.value < v) then None else Some(v)
  }

  /** `v` respects the bounds that are given. */
  predicate WithinBounds(min: Option<int>, max: Option<int>, v: int)
  {
    !(min.Some? && min.value > v) && !(max.Some? && max.value < v)
  }

  /** The magnitude the read side takes from a stored `int`: `-val` in `int`
    * (which leaves INT_MIN as it is), widened to `unsigned long`. */
  function Magnitude(v: int): (m: nat)
    requires IsInt32(v)
    ensures v != INT_MIN ==> m == if v < 0 then -v else v
    ensures v == INT_MIN ==> m == U64 + INT_MIN
  {
    if v < 0 then Wrap(Int32Of(-v), U64) else v
  }

  /** The sign and magnitude a read prints for a stored `int`. */
  function ConvRead(conv: Conv, v: int): (r: (bool, nat))
    requires IsInt32(v)
    ensures r.0 <==> v < 0
    ensures r.1 == if conv.JiffiesConv? then Magnitude(v) / KernelEnv.HZ else Magnitude(v)
  {
    (v < 0, if conv.JiffiesConv? then Magnitude(v) / KernelEnv.HZ else Magnitude(v))
  }

  /** The write conversion undoes the read conversion: the sign and
    * magnitude a read takes from an `int` convert back to it, INT_MIN
    * included; with bounds, exactly for the values within them. */
  lemma ConvRoundTrip(conv: Conv, v: int)
    requires IsInt32(v) && !conv.JiffiesConv?
    ensures var (neg, lval) := ConvRead(conv, v);
      conv.PlainConv? ==> ConvWrite(conv, neg, lval) == Some(v)
    ensures var (neg, lval) := ConvRead(conv, v);
      conv.MinMaxConv? ==> (ConvWrite(conv, neg, lval) == Some(v) <==> WithinBounds(conv.min, conv.max, v))
  {
    var (neg, lval) := ConvRead(conv, v);
    assert Int32Of(Signed(neg, lval)) == v by {
      if v == INT_MIN {
        assert Wrap(Signed(neg, lval), U32) == Wrap(INT_MIN, U32);
      }
    }
  }

  /** What a read prints for a one-value vector, written back, is read as
    * the sign and magnitude the read converted, the parse stopping at the
    * newline. INT_MIN is left out: its printed form needs more room than
    * `buf` has. */
  lemma PrintedValueReadsBack(conv: Conv, v: int, twice: bool)
    requires IsInt32(v) && v != INT_MIN
    ensures |Rendered(conv, [v], 1)| <= 12
    ensures var text := Rendered(conv, [v], 1);
      var lx := Lex(text, 0, |text|, twice);
      lx.Num? && (lx.neg, lx.lval) == ConvRead(conv, v) && lx.s == |text| - 1
      && (!twice ==> lx.left == 1)
  {
    var (neg, lval) := ConvRead(conv, v);
    RenderedOne(conv, v);
    LexNumeral(neg, lval, twice);
  }

  /** The text of a one-value vector. */
  lemma RenderedOne(conv: Conv, v: int)
    requires IsInt32(v) && v != INT_MIN
    ensures ConvRead(conv, v).1 <= 2147483648
    ensures Rendered(conv, [v], 1) == (if v < 0 then "-" else "") + NatToDecimal(ConvRead(conv, v).1) + "\n"
  {
    var lval := ConvRead(conv, v).1;
    assert lval <= Magnitude(v);
    var t := Token(conv, v, true);
    assert t == (if v < 0 then "-" else "") + NatToDecimal(lval);
    assert Tokens(conv, [v], 1) == Tokens(conv, [v], 0) + t;
    assert Tokens(conv, [v], 0) == "";
  }

  /** So a write of the text a read printed stores the value again; with
    * bounds, exactly when it is within them. */
  lemma PrintedValueStored(conv: Conv, v: int, twice: bool)
    requires IsInt32(v) && v != INT_MIN
    ensures |Rendered(conv, [v], 1)| <= 12
    ensures var text := Rendered(conv, [v], 1);
      var lx := Lex(text, 0, |text|, twice);
      lx.Num? && (conv.PlainConv? ==> ConvWrite(conv, lx.neg, lx.lval) == Some(v))
    ensures var text := Rendered(conv, [v], 1);
      var lx := Lex(text, 0, |text|, twice);
      lx.Num? && (conv.MinMaxConv? ==> (ConvWrite(conv, lx.neg, lx.lval) == Some(v) <==> WithinBounds(conv.min, conv.max, v)))
  {
    PrintedValueReadsBack(conv, v, twice);
    if !conv.JiffiesConv? {
      ConvRoundTrip(conv, v);
    }
  }

  /** A sign and a decimal numeral of at most ten digits, ended by a
    * newline, lex as that number. */
  lemma LexNumeral(neg: bool, lval: nat, twice: bool)
    requires lval <= 2147483648
    ensures var text := (if neg then "-" else "") + NatToDecimal(lval) + "\n";
      |text| <= 12
      && Lex(text, 0, |text|, twice) == Num(neg, lval, |text| - 1, if twice && neg then 0 else 1)
  {
    var d := NatToDecimal(lval);
    var text := (if neg then "-" else "") + d + "\n";
    assert Pow10(10) == 10000000000;
    DecimalWidth(lval, 10);
    assert SkipBlank(text, 0, |text|) == (0, |text|) by {
      assert At(text, 0) == text[0];
      assert !IsSpace(text[0]) by {
        if !neg { assert text[0] == d[0]; }
      }
    }
    ParseNumeral(neg, lval, twice);
  }

  /** A text no longer than the buffer is copied whole. */
  lemma WindowWhole(buf: string)
    requires |buf| < TMPBUFLEN
    ensures Window(buf, 0, Min(|buf|, TMPBUFLEN - 1)) == buf
  {
    var w := Window(buf, 0, Min(|buf|, TMPBUFLEN - 1));
    forall k | 0 <= k < |buf| ensures w[k] == buf[k] {
      assert w[k] == At(buf, k);
    }
  }

  /** The number parser reads such a numeral whole. */
  lemma ParseNumeral(neg: bool, lval: nat, twice: bool)
    requires lval <= ULONG_MAX
    requires |NatToDecimal(lval)| <= 10
    ensures var text := (if neg then "-" else "") + NatToDecimal(lval) + "\n";
      ParseNumber(text, 0, |text|, twice)
        == Number(neg, lval, |text| - 1, if twice && neg then |text| - 1 else |text|)
  {
    var d := NatToDecimal(lval);
    var text := (if neg then "-" else "") + d + "\n";
    var p := if neg then 1 else 0;
    NumeralParts(neg, d);
    StrToULAutoDecimal(lval, "\n");
    WindowWhole(text);
    ParseCopyReads(text, |text|, twice, p, Conversion(lval, |d|));
  }

  /** Where the sign, the digits and the newline of such a text are. */
  lemma NumeralParts(neg: bool, d: string)
    requires |d| > 0 && IsDigit(d[0])
    ensures var text := (if neg then "-" else "") + d + "\n";
      var p := if neg then 1 else 0;
      (At(text, 0) == '-' <==> neg) && text[p..] == d + "\n" && At(text, p) == d[0]
      && At(text, p + |d|) == '\n'
  {
    var text := (if neg then "-" else "") + d + "\n";
    if !neg { assert text[0] == d[0]; }
  }

  /** The steps of the number parser once its sign test and its
    * `simple_strtoul` are known. */
  lemma ParseCopyReads(tmp: string, left: nat, twice: bool, p: nat, e: Conversion)
    requires 0 < left && |tmp| <= left
    requires p == if At(tmp, 0) == '-' && left > 1 then 1 else 0
    requires IsDigit(At(tmp, p)) && p <= |tmp| && StrToUL(tmp[p..], 0) == e
    ensures var left1 := if p == 1 && twice then left - 1 else left;
      var len := p + e.end;
      ParseCopy(tmp, left, twice)
        == if len < left1 && At(tmp, len) != '\0' && !IsSpace(At(tmp, len)) then NoNumber(left1)
           else Number(p == 1, e.value, len, left1)
  {
  }

  /** Jiffies are printed as whole seconds, so a read and a write back keep
    * the value rounded toward zero to a multiple of HZ. */
  lemma JiffiesRoundTrip(v: int)
    requires IsInt32(v) && v != INT_MIN
    ensures var (neg, lval) := ConvRead(JiffiesConv, v);
      var m := if v < 0 then -v else v;
      ConvWrite(JiffiesConv, neg, lval) == Some(if v < 0 then -(m / KernelEnv.HZ * KernelEnv.HZ) else m / KernelEnv.HZ * KernelEnv.HZ)
  {
  }

  // ------------------------------------------------------------------
  // Reading a vector: the text a read produces
  // ------------------------------------------------------------------

  /** One printed value: a tab before every value but the first, a minus
    * sign for a negative value, then the magnitude in decimal. */
  function Token(conv: Conv, v: int, first: bool): string
    requires IsInt32(v)
  {
    var (neg, lval) := ConvRead(conv, v);
    (if first then "" else "\t") + (if neg then "-" else "") + NatToDecimal(lval)
  }

  /** The first `n` values printed one after the other. */
  function Tokens(conv: Conv, vals: seq<int>, n: nat): (t: string)
    requires n <= |vals| && Int32s(vals)
    decreases n
  {
    if n == 0 then "" else Tokens(conv, vals, n - 1) + Token(conv, vals[n - 1], n == 1)
  }

  /** The whole text of a vector of `n` values: tab-separated and ended by a
    * newline (nothing at all when there are no values). */
  function Rendered(conv: Conv, vals: seq<int>, n: nat): (t: string)
    requires n <= |vals| && Int32s(vals)
  {
    Tokens(conv, vals, n) + (if n > 0 then "\n" else "")
  }

  /** Printing stops only after the values: the text of fewer values is a
    * prefix of the text of more. */
  lemma {:induction false} TokensPrefix(conv: Conv, vals: seq<int>, i: nat, j: nat)
    requires i <= j <= |vals| && Int32s(vals)
    ensures Tokens(conv, vals, i) <= Tokens(conv, vals, j)
    decreases j - i
  {
    if i < j {
      TokensPrefix(conv, vals, i, j - 1);
    }
  }

  // ------------------------------------------------------------------
  // Writing a vector: the parse of the text
  // ------------------------------------------------------------------

  /** `TMPBUFLEN`: a number is copied into a buffer of 21 characters, its
    * terminator included. */
  const TMPBUFLEN: nat := 21

  /** The character at `k` of a written buffer. The buffer the simulator
    * writes is NUL-terminated; positions past its end read as that NUL. */
  function At(buf: string, k: nat): char
  {
    if k < |buf| then buf[k] else '\0'
  }

  /** The `len` characters `memcpy` copies from `s`. */
  function Window(buf: string, s: nat, len: nat): (w: string)
    ensures |w| == len && forall k :: 0 <= k < len ==> w[k] == At(buf, s + k)
    decreases len
  {
    if len == 0 then [] else [At(buf, s)] + Window(buf, s + 1, len - 1)
  }

  /** The write loop's variables: the position `s` in the buffer, the count
    * `left` (a `size_t`), the index `i` of the next value, whether no value
    * has been stored yet, and the vector. */
  datatype Cursor = Cursor(s: nat, left: nat, i: nat, first: bool, vals: seq<int>)

  /** White space skipped while `left` lasts. */
  function SkipBlank(buf: string, s: nat, left: nat): (r: (nat, nat))
    ensures r.1 <= left && r.0 == s + (left - r.1)
    ensures r.1 > 0 ==> !IsSpace(At(buf, r.0))
    decreases left
  {
    if left > 0 && IsSpace(At(buf, s)) then SkipBlank(buf, s + 1, left - 1) else (s, left)
  }

  /** What the number parser makes of the text at `s`, `left` characters
    * remaining and the first of them not blank: a sign, a magnitude, the
    * number of characters it took and the count left after the sign; or no
    * number (nothing converts, or junk follows the digits). With `twice` a
    * leading minus sign is taken off `left` on its own, as the code is
    * written; without it, it is counted once, as part of the length. */
  datatype Parsed = Number(neg: bool, lval: nat, len: nat, left: nat) | NoNumber(left: nat)

  function ParseNumber(buf: string, s: nat, left: nat, twice: bool): (r: Parsed)
    requires left > 0
    ensures !twice ==> r.left == left
    ensures twice ==> r.left == left || r.left + 1 == left
    ensures r.Number? ==> 0 < r.len <= left && r.lval <= ULONG_MAX
  {
    ParseCopy(Window(buf, s, Min(left, TMPBUFLEN - 1)), left, twice)
  }

  /** The number parser on the copy `tmp` in `buf`. */
  function ParseCopy(tmp: string, left: nat, twice: bool): (r: Parsed)
    requires 0 < left && |tmp| <= left
    ensures !twice ==> r.left == left
    ensures twice ==> r.left == left || r.left + 1 == left
    ensures r.Number? ==> 0 < r.len <= left && r.lval <= ULONG_MAX
  {
    var neg := At(tmp, 0) == '-' && left > 1;
    var left1 := if neg && twice then left - 1 else left;
    var p := if neg then 1 else 0;
    if !IsDigit(At(tmp, p)) then NoNumber(left1)
    else
      var e := StrToUL(tmp[p..], 0);
      var len := p + e.end;
      if len < left1 && At(tmp, len) != '\0' && !IsSpace(At(tmp, len)) then NoNumber(left1)
      else Number(neg, e.value, len, left1)
  }

  /** What one pass of the write loop reads from the text: the count ran
    * out among blanks (`if (!left) break;`), no number or junk after one
    * (`break`), or a number; each with the position and count it leaves. */
  datatype Lexeme =
    | Spent(s: nat, left: nat)
    | Junk(s: nat, left: nat)
    | Num(neg: bool, lval: nat, s: nat, left: nat)

  /** One pass of the write loop up to the conversion: skip blanks, then
    * parse a number and step over it. */
  function Lex(buf: string, s: nat, left: nat, twice: bool): (r: Lexeme)
    requires left < U64
    ensures r.left < U64 && r.s >= s
    ensures r.Spent? ==> r.left == 0
    ensures r.Num? ==> r.lval <= ULONG_MAX
    ensures !twice ==> r.s + r.left == s + left
  {
    var (s1, left1) := SkipBlank(buf, s, left);
    if left1 == 0 then Spent(s1, 0)
    else
      match ParseNumber(buf, s1, left1, twice)
      case NoNumber(l) => Junk(s1, l)
      case Number(neg, lval, len, l) =>
        // `left -= len` on an unsigned long: it can only go one below zero
        // (the sign counted twice), which wraps to ULONG_MAX.
        Num(neg, lval, s1 + len, if len <= l then l - len else ULONG_MAX)
  }

  /** What one pass of the write loop reads, as a function of the position
    * and the count. */
  type Reader = (nat, nat) -> Lexeme

  /** The passes over `buf`; a count of 2^64 or more, which no pass sees,
    * reads nothing. */
  function ReaderOf(buf: string, twice: bool): Reader
  {
    (s: nat, left: nat) => if left < U64 then Lex(buf, s, left, twice) else Spent(s, 0)
  }

  /** `rd` reads `buf` as the passes of the write loop do. */
  ghost predicate ReadsAs(rd: Reader, buf: string, twice: bool)
  {
    forall s: nat, left: nat {:trigger Lex(buf, s, left, twice)} ::
      left < U64 ==> rd(s, left) == Lex(buf, s, left, twice)
  }

  lemma ReaderReads(buf: string, twice: bool)
    ensures ReadsAs(ReaderOf(buf, twice), buf, twice)
  {
  }

  /** The lexemes `rd` reads, at most `n` of them: the loop goes on after a
    * number while `left` lasts. */
  function LexesBy(rd: Reader, s: nat, left: nat, n: nat): (r: seq<Lexeme>)
    ensures |r| <= n
    decreases n
  {
    if left == 0 || n == 0 then []
    else
      var lx := rd(s, left);
      [lx] + if lx.Num? then LexesBy(rd, lx.s, lx.left, n - 1) else []
  }

  /** The lexemes the write loop reads from `buf`. */
  function Lexes(buf: string, s: nat, left: nat, twice: bool, n: nat): (r: seq<Lexeme>)
    ensures |r| <= n
  {
    LexesBy(ReaderOf(buf, twice), s, left, n)
  }

  /** Each read leaves `s + left` as it was, and the count below 2^64. */
  ghost predicate KeepsEnd(rd: Reader)
  {
    forall s: nat, left: nat :: left < U64 ==> rd(s, left).left < U64 && rd(s, left).s + rd(s, left).left == s + left
  }

  /** So do the passes over text with the sign counted once. */
  lemma ReaderKeepsEnd(buf: string)
    ensures KeepsEnd(ReaderOf(buf, false))
  {
    forall s: nat, left: nat | left < U64
      ensures ReaderOf(buf, false)(s, left) == Lex(buf, s, left, false)
    {
    }
  }

  /** Then every lexeme read leaves `s + left` as it was. */
  lemma {:induction false} LexesByKeepEnd(rd: Reader, s: nat, left: nat, n: nat)
    requires KeepsEnd(rd) && left < U64
    ensures forall k :: 0 <= k < |LexesBy(rd, s, left, n)| ==>
      LexesBy(rd, s, left, n)[k].s + LexesBy(rd, s, left, n)[k].left == s + left
    decreases n
  {
    if left != 0 && n != 0 {
      var lx := rd(s, left);
      assert lx.left < U64 && lx.s + lx.left == s + left;
      if lx.Num? {
        LexesByKeepEnd(rd, lx.s, lx.left, n - 1);
        var rest := LexesBy(rd, lx.s, lx.left, n - 1);
        assert LexesBy(rd, s, left, n) == [lx] + rest;
        forall k | 1 <= k < 1 + |rest|
          ensures ([lx] + rest)[k].s + ([lx] + rest)[k].left == s + left
        {
          assert ([lx] + rest)[k] == rest[k - 1];
        }
      } else {
        assert LexesBy(rd, s, left, n) == [lx];
      }
    }
  }

  /** With the sign counted once, each lexeme leaves `s + left` as it was. */
  lemma LexesKeepEnd(buf: string, s: nat, left: nat, n: nat)
    requires left < U64
    ensures forall k :: 0 <= k < |Lexes(buf, s, left, false, n)| ==>
      Lexes(buf, s, left, false, n)[k].s + Lexes(buf, s, left, false, n)[k].left == s + left
  {
    var rd := ReaderOf(buf, false);
    ReaderKeepsEnd(buf);
    LexesByKeepEnd(rd, s, left, n);
    assert Lexes(buf, s, left, false, n) == LexesBy(rd, s, left, n);
  }

  /** The loop's stores, driven by `lxs`: each number is converted and
    * stored at `i`; anything else, or a conversion that fails, is a
    * `break`. It stores values from `i` on, at most one per lexeme, each
    * an `int` within the bounds, and changes no other value; `first`
    * stays set exactly when it stores none; the position and count are
    * those of the last lexeme it reads. */
  function Store(conv: Conv, c: Cursor, lxs: seq<Lexeme>): (r: Cursor)
    requires c.i + |lxs| <= |c.vals|
    ensures |r.vals| == |c.vals|
    ensures c.i <= r.i <= c.i + |lxs|
    ensures forall k :: 0 <= k < |c.vals| && !(c.i <= k < r.i) ==> r.vals[k] == c.vals[k]
    ensures forall k :: c.i <= k < r.i ==> IsInt32(r.vals[k]) && (conv.MinMaxConv? ==> WithinBounds(conv.min, conv.max, r.vals[k]))
    ensures r.first <==> c.first && r.i == c.i
    ensures (forall k :: 0 <= k < |lxs| ==> lxs[k].s + lxs[k].left == c.s + c.left) ==> r.s + r.left == c.s + c.left
    decreases |lxs|
  {
    if lxs == [] then c
    else
      var lx := lxs[0];
      var c1 := c.(s := lx.s, left := lx.left);
      if !lx.Num? then c1
      else
        match ConvWrite(conv, lx.neg, lx.lval)
        case None => c1
        case Some(v) => Store(conv, c1.(i := c.i + 1, first := false, vals := c.vals[c.i := v]), lxs[1..])
  }

  /** The loop `for (; left && vleft--; i++, first = 0)` of a write, from
    * the cursor `c`, over at most `vleft` values. */
  function WriteLoop(conv: Conv, buf: string, c: Cursor, vleft: nat, twice: bool): (r: Cursor)
    requires c.i + vleft <= |c.vals| && c.left < U64
  {
    Store(conv, c, Lexes(buf, c.s, c.left, twice, vleft))
  }

  /** The first lexeme read from a count that has not run out, and the
    * rest after a number. */
  lemma LexesHead(buf: string, s: nat, left: nat, twice: bool, n: nat)
    requires 0 < left < U64 && n != 0
    ensures var lxs := Lexes(buf, s, left, twice, n);
      && |lxs| > 0 && lxs[0] == Lex(buf, s, left, twice)
      && lxs[1..] == if lxs[0].Num? then Lexes(buf, lxs[0].s, lxs[0].left, twice, n - 1) else []
  {
    var lx := Lex(buf, s, left, twice);
    var lxs := Lexes(buf, s, left, twice, n);
    assert lxs == [lx] + (if lx.Num? then Lexes(buf, lx.s, lx.left, twice, n - 1) else []);
  }

  /** The first store, and the rest after it. */
  lemma StoreHead(conv: Conv, c: Cursor, lxs: seq<Lexeme>)
    requires c.i + |lxs| <= |c.vals| && |lxs| > 0
    ensures var lx := lxs[0];
      var c1 := c.(s := lx.s, left := lx.left);
      Store(conv, c, lxs)
      == if !lx.Num? || ConvWrite(conv, lx.neg, lx.lval).None? then c1
         else Store(conv, c1.(i := c.i + 1, first := false, vals := c.vals[c.i := ConvWrite(conv, lx.neg, lx.lval).value]), lxs[1..])
  {
  }

  /** One pass of the write loop, from a cursor whose count has not run
    * out: the lexeme it reads and what the loop does with it. */
  lemma WriteLoopStep(conv: Conv, buf: string, c: Cursor, vleft: nat, twice: bool)
    requires c.i + vleft <= |c.vals| && c.left < U64 && c.left != 0 && vleft != 0
    ensures var lx := Lex(buf, c.s, c.left, twice);
      var c1 := c.(s := lx.s, left := lx.left);
      WriteLoop(conv, buf, c, vleft, twice)
      == if !lx.Num? || ConvWrite(conv, lx.neg, lx.lval).None? then c1
         else WriteLoop(conv, buf, c1.(i := c.i + 1, first := false, vals := c.vals[c.i := ConvWrite(conv, lx.neg, lx.lval).value]), vleft - 1, twice)
  {
    LexesHead(buf, c.s, c.left, twice, vleft);
    StoreHead(conv, c, Lexes(buf, c.s, c.left, twice, vleft));
  }

  /** The blanks skipped after the loop; the count of characters still
    * unread after them. */
  function TrailingBlank(buf: string, s: nat, left: nat): (r: nat)
    ensures r <= left
    ensures r > 0 ==> !IsSpace(At(buf, s + (left - r)))
    decreases left
  {
    if left == 0 then 0
    else if !IsSpace(At(buf, s)) then left
    else TrailingBlank(buf, s + 1, left - 1)
  }

  // ------------------------------------------------------------------
  // The handler
  // ------------------------------------------------------------------

  /** What a call of `do_proc_dointvec` returns and leaves: the return value,
    * the text a read puts in the buffer, `*lenp`, `*ppos` and the vector. */
  datatype IntVec = IntVec(ret: int, text: string, lenp: nat, ppos: int, vals: seq<int>)

  /** `do_proc_dointvec` on a table whose `data` holds `data` (None for
    * NULL) and whose `maxlen` is `maxlen` bytes, with `*lenp == lenp` and
    * `*ppos == ppos`. Nothing happens without data, room or length, or for
    * a read not at the start. A read yields the text of the first
    * `maxlen / 4` values, cut to `lenp` characters. A write stores the
    * numbers it parses; when it stores none it fails with -EINVAL.
    * Otherwise `*lenp` becomes the count of characters consumed and
    * `*ppos` advances by it. */
  function Dointvec(conv: Conv, data: Option<seq<int>>, maxlen: nat, write: bool, buf: string, lenp: nat, ppos: int, twice: bool): (r: IntVec)
    requires data.Some? ==> maxlen / 4 <= |data.value| && Int32s(data.value)
    requires lenp < U64
  {
    var vals := if data.Some? then data.value else [];
    if data.None? || maxlen == 0 || lenp == 0 || (ppos != 0 && !write) then IntVec(0, "", 0, ppos, vals)
    else if write then
      var c := WriteLoop(conv, buf, Cursor(0, lenp, 0, true, vals), maxlen / 4, twice);
      if c.first then IntVec(-Wire.EINVAL, "", lenp, ppos, vals)
      else
        var l := Wrap(lenp - TrailingBlank(buf, c.s, c.left), U64);
        IntVec(0, "", l, ppos + l, c.vals)
    else
      var t := Rendered(conv, vals, maxlen / 4);
      var text := t[..Min(lenp, |t|)];
      IntVec(0, text, |text|, ppos + |text|, vals)
  }

  /** `do_proc_dointvec` with the '-' counted once, on the table's `data`
    * in place; `buffer` is the user's text for a write, and `text` what a
    * read puts in the user's buffer. */
  method DoProcDointvec(conv: Conv, data: array?<int>, maxlen: nat, write: bool, buffer: string, lenp: nat, ppos: int)
    returns (ret: int, text: string, lenp': nat, ppos': int)
    requires data != null ==> maxlen / 4 <= data.Length && Int32s(data[..])
    requires lenp < U64
    modifies data
    ensures var r := Dointvec(conv, if data == null then None else Some(old(data[..])), maxlen, write, buffer, lenp, ppos, false);
      && ret == r.ret && text == r.text && lenp' == r.lenp && ppos' == r.ppos
      && (data != null ==> data[..] == r.vals)
  {
    if data == null || maxlen == 0 || lenp == 0 || (ppos != 0 && !write) {
      return 0, "", 0, ppos;
    }
    if !write {
      text := ReadVector(conv, data, maxlen / 4, lenp);
      return 0, text, |text|, ppos + |text|;
    }
    ghost var vals := data[..];
    var first, left, s := WriteVector(conv, data, maxlen / 4, buffer, lenp);
    LexesKeepEnd(buffer, 0, lenp, maxlen / 4);
    left := SkipTrailing(buffer, s, left);
    if first {
      return -Wire.EINVAL, "", lenp, ppos;
    }
    ret, text := 0, "";
    lenp' := lenp - left;
    ppos' := ppos + lenp';
  }

  /** The read half of the loop: each value printed in turn, cut off when
    * `left` runs out, then the newline if there is room. */
  method ReadVector(conv: Conv, data: array<int>, n: nat, lenp: nat) returns (text: string)
    requires n <= data.Length && Int32s(data[..]) && lenp > 0
    ensures var t := Rendered(conv, data[..], n); text == t[..Min(lenp, |t|)]
  {
    ghost var vals := data[..];
    var vleft: nat := n;
    var left: nat := lenp;
    var i: nat := 0;
    var first := true;
    text := "";
    while left != 0 && vleft != 0
      invariant i + vleft == n && left <= lenp
      invariant first <==> i == 0
      invariant left > 0 ==> text == Tokens(conv, vals, i) && |text| + left == lenp
      invariant left == 0 ==> |Tokens(conv, vals, i)| >= lenp && text == Tokens(conv, vals, i)[..lenp]
      decreases vleft
    {
      vleft := vleft - 1;
      var tok := Token(conv, data[i], first);
      var len := if |tok| > left then left else |tok|;
      ReadStep(conv, vals, i, text, left, lenp, tok);
      text := text + tok[..len];
      left := left - len;
      i := i + 1;
      first := false;
    }
    ReadEnds(conv, vals, n, lenp, i, text, left);
    if !first && left != 0 {
      text := text + "\n";
    }
  }

  /** One pass of the read loop: the next token, cut to what is left. */
  lemma ReadStep(conv: Conv, vals: seq<int>, i: nat, text: string, left: nat, lenp: nat, tok: string)
    requires i < |vals| && Int32s(vals) && left > 0 && text == Tokens(conv, vals, i) && |text| + left == lenp
    requires tok == Token(conv, vals[i], i == 0)
    ensures var len := if |tok| > left then left else |tok|;
      var text', left' := text + tok[..len], left - len;
      && (left' > 0 ==> text' == Tokens(conv, vals, i + 1) && |text'| + left' == lenp)
      && (left' == 0 ==> |Tokens(conv, vals, i + 1)| >= lenp && text' == Tokens(conv, vals, i + 1)[..lenp])
  {
    assert Tokens(conv, vals, i + 1) == text + tok;
    if |tok| >= left {
      assert (text + tok)[..lenp] == text + tok[..left];
    }
  }

  /** Where the read loop stops, the text so far and the newline if there
    * is room are the rendered vector cut to `lenp` characters. */
  lemma ReadEnds(conv: Conv, vals: seq<int>, n: nat, lenp: nat, i: nat, text: string, left: nat)
    requires n <= |vals| && Int32s(vals) && i <= n && left <= lenp
    requires left > 0 ==> text == Tokens(conv, vals, i) && |text| + left == lenp
    requires left == 0 ==> |Tokens(conv, vals, i)| >= lenp && text == Tokens(conv, vals, i)[..lenp]
    requires left == 0 || i == n
    ensures var t := Rendered(conv, vals, n);
      text + (if i > 0 && left != 0 then "\n" else "") == t[..Min(lenp, |t|)]
  {
    TokensPrefix(conv, vals, i, n);
  }

  /** Where the reading stands after the first `j` of `lxs`, read from
    * `s0` with `left0` to go: the position, */
  function PosAfter(lxs: seq<Lexeme>, j: nat, s0: nat): nat
    requires j <= |lxs|
  {
    if j == 0 then s0 else lxs[j - 1].s
  }

  /** and the count. */
  function LeftAfter(lxs: seq<Lexeme>, j: nat, left0: nat): nat
    requires j <= |lxs|
  {
    if j == 0 then left0 else lxs[j - 1].left
  }

  /** After `j` lexemes that end in a number, the ones still to come are
    * those read afresh from where that number ended. */
  lemma {:induction false} ReadSuffix(rd: Reader, s0: nat, left0: nat, n: nat, lxs: seq<Lexeme>, j: nat)
    requires lxs == LexesBy(rd, s0, left0, n)
    requires j <= |lxs| && (j == 0 || lxs[j - 1].Num?)
    ensures j <= n && lxs[j..] == LexesBy(rd, PosAfter(lxs, j, s0), LeftAfter(lxs, j, left0), n - j)
    decreases j
  {
    if j == 0 {
      assert lxs[j..] == lxs;
      assert PosAfter(lxs, j, s0) == s0 && LeftAfter(lxs, j, left0) == left0;
    } else {
      var lx := lxs[0];
      var rest := lxs[1..];
      assert !lx.Num? ==> lxs == [lx];
      assert lx.Num?;
      assert rest == LexesBy(rd, lx.s, lx.left, n - 1);
      assert j - 1 == 0 || rest[j - 2].Num? by {
        if j > 1 {
          assert rest[j - 2] == lxs[j - 1];
        }
      }
      ReadSuffix(rd, lx.s, lx.left, n - 1, rest, j - 1);
      assert PosAfter(rest, j - 1, lx.s) == PosAfter(lxs, j, s0);
      assert LeftAfter(rest, j - 1, lx.left) == LeftAfter(lxs, j, left0);
      assert lxs[j..] == rest[j - 1..];
      assert n - 1 - (j - 1) == n - j;
    }
  }

  /** The lexeme read next, while the count and the vector last. */
  lemma ReadNext(rd: Reader, s0: nat, left0: nat, n: nat, lxs: seq<Lexeme>, j: nat)
    requires lxs == LexesBy(rd, s0, left0, n)
    requires j <= |lxs| && (j == 0 || lxs[j - 1].Num?)
    requires LeftAfter(lxs, j, left0) != 0 && j < n
    ensures j < |lxs| && lxs[j] == rd(PosAfter(lxs, j, s0), LeftAfter(lxs, j, left0))
  {
    ReadSuffix(rd, s0, left0, n, lxs, j);
    assert lxs[j..][0] == lxs[j];
  }

  /** Once the count or the vector has run out, nothing more is read. */
  lemma ReadStop(rd: Reader, s0: nat, left0: nat, n: nat, lxs: seq<Lexeme>, j: nat)
    requires lxs == LexesBy(rd, s0, left0, n)
    requires j <= |lxs| && (j == 0 || lxs[j - 1].Num?)
    requires LeftAfter(lxs, j, left0) == 0 || j == n
    ensures |lxs| == j
  {
    ReadSuffix(rd, s0, left0, n, lxs, j);
  }

  /** The write half of the loop, storing into `data` in place; the final
    * `first`, `left` and `s`. */
  method WriteVector(conv: Conv, data: array<int>, n: nat, buffer: string, lenp: nat) returns (first: bool, left: nat, s: nat)
    requires n <= data.Length && lenp < U64
    modifies data
    ensures var c := WriteLoop(conv, buffer, Cursor(0, lenp, 0, true, old(data[..])), n, false);
      c == Cursor(s, left, c.i, first, data[..])
  {
    ReaderReads(buffer, false);
    first, left, s := WriteVectorBy(conv, data, n, buffer, lenp, ReaderOf(buffer, false));
  }

  /** The loop itself, with the passes over `buffer` read by `rd`. */
  method WriteVectorBy(conv: Conv, data: array<int>, n: nat, buffer: string, lenp: nat, ghost rd: Reader)
    returns (first: bool, left: nat, s: nat)
    requires n <= data.Length && lenp < U64 && ReadsAs(rd, buffer, false)
    modifies data
    ensures var c := Store(conv, Cursor(0, lenp, 0, true, old(data[..])), LexesBy(rd, 0, lenp, n));
      c == Cursor(s, left, c.i, first, data[..])
  {
    ghost var lxs := LexesBy(rd, 0, lenp, n);
    var vleft: nat := n;
    left := lenp;
    var i: nat := 0;
    first := true;
    s := 0;
    ghost var final := Store(conv, Cursor(0, lenp, 0, true, data[..]), lxs);
    while left != 0 && vleft != 0
      invariant i + vleft == n && i <= |lxs| && (i == 0 || lxs[i - 1].Num?) && left < U64
      invariant s == PosAfter(lxs, i, 0) && left == LeftAfter(lxs, i, lenp)
      invariant Store(conv, Cursor(s, left, i, first, data[..]), lxs[i..]) == final
      decreases vleft
    {
      var go;
      go, s, left := WritePass(conv, data, i, first, buffer, s, left, rd, lxs, lenp, n);
      vleft := vleft - 1;
      if !go {
        return;
      }
      i := i + 1;
      first := false;
    }
    ReadStop(rd, 0, lenp, n, lxs, i);
    StoreNothing(conv, Cursor(s, left, i, first, data[..]), lxs[i..]);
  }

  /** With no lexeme left, the cursor is where it is. */
  lemma StoreNothing(conv: Conv, c: Cursor, lxs: seq<Lexeme>)
    requires lxs == [] && c.i <= |c.vals|
    ensures Store(conv, c, lxs) == c
  {
  }

  /** One pass of the write loop on `data[i]`, reading the `i`th of the
    * lexemes `lxs` of the whole text: false for its `break`s. */
  method WritePass(conv: Conv, data: array<int>, i: nat, first: bool, buffer: string, s: nat, left: nat,
                   ghost rd: Reader, ghost lxs: seq<Lexeme>, ghost lenp: nat, ghost n: nat)
    returns (go: bool, s': nat, left': nat)
    requires ReadsAs(rd, buffer, false) && lxs == LexesBy(rd, 0, lenp, n) && n <= data.Length
    requires i < n && i <= |lxs| && (i == 0 || lxs[i - 1].Num?)
    requires s == PosAfter(lxs, i, 0) && left == LeftAfter(lxs, i, lenp) && 0 < left < U64
    modifies data
    ensures left' < U64
    ensures var c := Store(conv, Cursor(s, left, i, first, old(data[..])), lxs[i..]);
      if go then i < |lxs| && lxs[i].Num? && s' == lxs[i].s && left' == lxs[i].left
        && Store(conv, Cursor(s', left', i + 1, false, data[..]), lxs[i + 1..]) == c
      else c == Cursor(s', left', i, first, data[..])
  {
    ghost var c := Cursor(s, left, i, first, data[..]);
    var lx := NextLexeme(buffer, s, left, rd, lxs, lenp, n, i);
    s', left' := lx.s, lx.left;
    go := false;
    if lx.Num? {
      var v := ConvWrite(conv, lx.neg, lx.lval);
      if v.Some? {
        data[i] := v.value;
        go := true;
      }
    }
    StoreHead(conv, c, lxs[i..]);
    assert lxs[i..][1..] == lxs[i + 1..];
  }

  /** The `i`th of the lexemes `lxs` of the whole text, read from where the
    * ones before it left off. */
  method NextLexeme(buffer: string, s: nat, left: nat, ghost rd: Reader, ghost lxs: seq<Lexeme>, ghost lenp: nat, ghost n: nat, ghost i: nat)
    returns (lx: Lexeme)
    requires ReadsAs(rd, buffer, false) && lxs == LexesBy(rd, 0, lenp, n)
    requires i < n && i <= |lxs| && (i == 0 || lxs[i - 1].Num?)
    requires s == PosAfter(lxs, i, 0) && left == LeftAfter(lxs, i, lenp) && 0 < left < U64
    ensures i < |lxs| && lx == lxs[i] && lx.left < U64
  {
    ReadNext(rd, 0, lenp, n, lxs, i);
    lx := ReadLexeme(buffer, s, left);
  }

  /** The blanks skipped, then the number parsed and stepped over. */
  method ReadLexeme(buffer: string, s: nat, left: nat) returns (lx: Lexeme)
    requires left < U64
    ensures lx == Lex(buffer, s, left, false)
  {
    var p: nat, rest: nat := s, left;
    while rest != 0 && IsSpace(At(buffer, p))
      invariant SkipBlank(buffer, p, rest) == SkipBlank(buffer, s, left)
      decreases rest
    {
      rest := rest - 1;
      p := p + 1;
    }
    if rest == 0 {
      return Spent(p, 0);
    }
    var parsed := ParseAt(buffer, p, rest);
    if parsed.NoNumber? {
      return Junk(p, parsed.left);
    }
    return Num(parsed.neg, parsed.lval, p + parsed.len, rest - parsed.len);
  }

  /** The number at `s`: copied to a 21-character buffer, a '-' taken when
    * more than it is left, then `simple_strtoul` in base 0 and the check on
    * what follows. */
  method ParseAt(buffer: string, s: nat, left: nat) returns (r: Parsed)
    requires left > 0
    ensures r == ParseNumber(buffer, s, left, false)
  {
    var len := Min(left, TMPBUFLEN - 1);
    var tmp := Window(buffer, s, len);
    var neg := false;
    var p := 0;
    if At(tmp, 0) == '-' && left > 1 {
      neg := true;
      p := 1;
    }
    if !IsDigit(At(tmp, p)) {
      return NoNumber(left);
    }
    var e := StrToUL(tmp[p..], 0);
    p := p + e.end;
    len := p;
    if len < left && At(tmp, p) != '\0' && !IsSpace(At(tmp, p)) {
      return NoNumber(left);
    }
    return Number(neg, e.value, len, left);
  }

  /** `while (left) { c = *(s++); if (!isspace(c)) break; left--; }` */
  method SkipTrailing(buffer: string, s: nat, left: nat) returns (rest: nat)
    ensures rest == TrailingBlank(buffer, s, left)
  {
    var p := s;
    rest := left;
    while rest != 0
      invariant TrailingBlank(buffer, p, rest) == TrailingBlank(buffer, s, left)
      decreases rest
    {
      var ch := At(buffer, p);
      p := p + 1;
      if !IsSpace(ch) {
        return;
      }
      rest := rest - 1;
    }
  }

  // ------------------------------------------------------------------
  // What a write does
  // ------------------------------------------------------------------

  /** How many values a write stores. */
  function StoredCount(conv: Conv, vals: seq<int>, maxlen: nat, buf: string, lenp: nat, twice: bool): nat
    requires maxlen / 4 <= |vals| && lenp < U64
  {
    WriteLoop(conv, buf, Cursor(0, lenp, 0, true, vals), maxlen / 4, twice).i
  }

  /** A write fails with -EINVAL, changing nothing, exactly when it stores
    * no value; otherwise it has consumed at most the text it was given and
    * `*ppos` advances by what it consumed. Only the first `maxlen / 4`
    * values, and of them only those stored, change; with bounds, every
    * stored value lies within them. */
  lemma WriteOutcome(conv: Conv, vals: seq<int>, maxlen: nat, buf: string, lenp: nat, ppos: int)
    requires maxlen / 4 <= |vals| && Int32s(vals) && lenp < U64 && maxlen > 0 && lenp > 0
    ensures var r := Dointvec(conv, Some(vals), maxlen, true, buf, lenp, ppos, false);
      var m := StoredCount(conv, vals, maxlen, buf, lenp, false);
      && m <= maxlen / 4 && |r.vals| == |vals| && Int32s(r.vals)
      && (r.ret == -Wire.EINVAL <==> m == 0)
      && (m == 0 ==> r == IntVec(-Wire.EINVAL, "", lenp, ppos, vals))
      && (m > 0 ==> r.ret == 0 && r.lenp <= lenp && r.ppos == ppos + r.lenp)
      && (forall k :: m <= k < |vals| ==> r.vals[k] == vals[k])
      && (conv.MinMaxConv? ==> forall k :: 0 <= k < m ==> WithinBounds(conv.min, conv.max, r.vals[k]))
  {
    LexesKeepEnd(buf, 0, lenp, maxlen / 4);
  }

  // ------------------------------------------------------------------
  // Binary writes
  // ------------------------------------------------------------------

  /** Each of the first `length` values of `vec` lies within its own bounds,
    * where either bound vector may be absent. */
  predicate VecWithin(vec: seq<int>, min: Option<seq<int>>, max: Option<seq<int>>, length: nat)
    requires length <= |vec|
    requires min.Some? ==> length <= |min.value|
    requires max.Some? ==> length <= |max.value|
  {
    forall i :: 0 <= i < length ==>
      (min.Some? ==> min.value[i] <= vec[i]) && (max.Some? ==> vec[i] <= max.value[i])
  }

  /** `sysctl_intvec` on a binary write of `newlen` bytes from `newval`
    * (None for NULL), with the table's `maxlen` and bound vectors `extra1`
    * and `extra2`: a length that is not a whole number of `int`s is
    * -EINVAL; without bounds, or without anything to write, every write is
    * accepted; otherwise it is -EINVAL exactly when one of the first
    * `min(newlen, maxlen) / 4` values lies outside its bounds. */
  method SysctlIntvec(newval: Option<seq<int>>, newlen: nat, maxlen: nat, min: Option<seq<int>>, max: Option<seq<int>>)
    returns (r: int)
    requires newval.Some? && newlen > 0 && newlen % 4 == 0 && (min.Some? || max.Some?) ==>
      var length := Min(newlen, maxlen) / 4;
      length <= |newval.value| && (min.Some? ==> length <= |min.value|) && (max.Some? ==> length <= |max.value|)
    ensures r == 0 || r == -Wire.EINVAL
    ensures r == -Wire.EINVAL <==>
      && newval.Some? && newlen > 0
      && (newlen % 4 != 0 || ((min.Some? || max.Some?) && !VecWithin(newval.value, min, max, Min(newlen, maxlen) / 4)))
  {
    if newval.None? || newlen == 0 {
      return 0;
    }
    var vec := newval.value;
    if newlen % 4 != 0 {
      return -Wire.EINVAL;
    }
    if min.None? && max.None? {
      return 0;
    }
    var len := newlen;
    if len > maxlen {
      len := maxlen;
    }
    var length := len / 4;
    var i := 0;
    while i < length
      invariant i <= length && VecWithin(vec, min, max, i)
    {
      var value := vec[i];
      if min.Some? && value < min.value[i] {
        return -Wire.EINVAL;
      }
      if max.Some? && value > max.value[i] {
        return -Wire.EINVAL;
      }
      i := i + 1;
    }
    return 0;
  }

  /** The two numbers of `-5 7`: `-5` at the start, with four
    * characters to go, and `7` at the end. */
  lemma ParseMinusFive(twice: bool)
    ensures ParseNumber("-5 7", 0, 4, twice) == Number(true, 5, 2, if twice then 3 else 4)
  {
    var w := Window("-5 7", 0, 4);
    assert w == "-5 7";
    assert w[1..] == NatToDecimal(5) + " 7";
    StrToULAutoDecimal(5, " 7");
  }

  lemma ParseSeven()
    ensures ParseNumber("-5 7", 3, 1, false) == Number(false, 7, 1, 1)
  {
    var w := Window("-5 7", 3, 1);
    assert w == "7";
    assert w[0..] == NatToDecimal(7) + "";
    StrToULAutoDecimal(7, "");
  }

  /** The lexemes of `-5 7`: `-5` either way, then, as written, only the
    * blank before the count runs out; counted once, `7`. */
  lemma LexMinusFive(twice: bool)
    ensures Lex("-5 7", 0, 4, twice) == Num(true, 5, 2, if twice then 1 else 2)
  {
    assert SkipBlank("-5 7", 0, 4) == (0, 4);
    ParseMinusFive(twice);
  }

  lemma LexesTwice()
    ensures Lexes("-5 7", 0, 4, true, 2) == [Num(true, 5, 2, 1), Spent(3, 0)]
  {
    LexMinusFive(true);
    assert SkipBlank("-5 7", 2, 1) == (3, 0);
    assert Lexes("-5 7", 3, 0, true, 0) == [];
  }

  lemma LexesOnce()
    ensures Lexes("-5 7", 0, 4, false, 2) == [Num(true, 5, 2, 2), Num(false, 7, 4, 0)]
  {
    LexMinusFive(false);
    assert SkipBlank("-5 7", 2, 2) == (3, 1);
    ParseSeven();
    assert Lex("-5 7", 2, 2, false) == Num(false, 7, 4, 0);
    assert Lexes("-5 7", 4, 0, false, 0) == [];
  }

  /** What the stores make of those lexemes. */
  lemma StoresTwice()
    ensures Store(PlainConv, Cursor(0, 4, 0, true, [0, 0]), [Num(true, 5, 2, 1), Spent(3, 0)]) == Cursor(3, 0, 1, false, [-5, 0])
  {
    var lxs := [Num(true, 5, 2, 1), Spent(3, 0)];
    assert ConvWrite(PlainConv, true, 5) == Some(-5);
    assert lxs[1..] == [Spent(3, 0)];
  }

  lemma StoresOnce()
    ensures Store(PlainConv, Cursor(0, 4, 0, true, [0, 0]), [Num(true, 5, 2, 2), Num(false, 7, 4, 0)]) == Cursor(4, 0, 2, false, [-5, 7])
  {
    var lxs := [Num(true, 5, 2, 2), Num(false, 7, 4, 0)];
    assert ConvWrite(PlainConv, true, 5) == Some(-5);
    assert ConvWrite(PlainConv, false, 7) == Some(7);
    assert lxs[1..] == [Num(false, 7, 4, 0)];
    assert lxs[1..][1..] == [];
  }

  /** `echo -5 7 > file` on a two-value vector, as written: the minus sign
    * is subtracted from `left` a second time, the count runs out at the
    * blank, and 7 is never parsed. */
  lemma SignCountedTwice()
    ensures Dointvec(PlainConv, Some([0, 0]), 8, true, "-5 7", 4, 0, true).vals == [-5, 0]
  {
    LexesTwice();
    StoresTwice();
  }

  /** The same write with the sign counted once stores both values. */
  lemma SignCountedOnce()
    ensures Dointvec(PlainConv, Some([0, 0]), 8, true, "-5 7", 4, 0, false).vals == [-5, 7]
  {
    LexesOnce();
    StoresOnce();
  }
}
