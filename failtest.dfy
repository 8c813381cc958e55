/**
 * The fault-injection controller of the simulator (core/failtest.c).
 *
 * Every place that can fail asks `should_i_fail(location)` (or the
 * at-most-once variant). With `--failtest` the controller records a
 * decision in its ledger and forks: the child takes the failing branch, the
 * parent waits and takes the succeeding one. A failure path printed from the
 * ledger can be handed back with `--failpath`, and is then replayed token by
 * token by a cursor scanner instead of forking.
 *
 * The fork is a parameter: which side of it the call continues on, and for
 * the parent the way the child ended.
 */
module FailTest {
  import opened Wrappers
  import opened CInt
  import opened CLib

  /** One ledger entry (`struct fail_decision`). */
  datatype Decision = Decision(location: string, line: nat, failed: bool)

  /** How the child of a failtest fork ended, as `waitpid` reports it. */
  datatype ChildStatus =
    | ExitedSuccess       // EXIT_SUCCESS
    | ExitedScriptFail    // EXIT_SCRIPTFAIL: the script noticed the failure
    | ExitedSilent        // EXIT_SILENT: the child already reported
    | ExitedOther(code: int)
    | Signalled(signal: int)

  /** Which process a call continues in after `fork()`. */
  datatype Fork = ForkFailed | InChild | InParent(status: ChildStatus)

  /** What a caller of the controller observes: a decision, or the end of the process. */
  datatype Outcome =
    | Returned(fail: bool)
    | Fatal         // barf(): exit(EXIT_FAILURE) after a message
    | ExitSilent    // exit(EXIT_SILENT) in the parent of a bad child

  // ------------------------------------------------------------------
  // The failure-path codec
  // ------------------------------------------------------------------

  function FlagChar(failed: bool): char { if failed then 'F' else 'S' }

  /** `%i` applied to the `unsigned int` line number. */
  function FormatLine(line: nat): string
    requires line < U32
  {
    IntToDecimal(ToInt32(line))
  }

  /** One `[location]:line:F` or `[location]:line:S` token. */
  function Token(d: Decision): string
    requires d.line < U32
  {
    "[" + d.location + "]:" + FormatLine(d.line) + ":" + [FlagChar(d.failed)]
  }

  predicate LinesFit(ds: seq<Decision>) { forall i :: 0 <= i < |ds| ==> ds[i].line < U32 }

  /** `failpath_string`: the tokens of the ledger in order, without separators. */
  function FailpathString(ds: seq<Decision>): string
    requires LinesFit(ds)
    decreases |ds|
  {
    if ds == [] then [] else FailpathString(ds[..|ds| - 1]) + Token(ds[|ds| - 1])
  }

  lemma {:induction false} FailpathStringConcat(a: seq<Decision>, b: seq<Decision>)
    requires LinesFit(a) && LinesFit(b)
    ensures LinesFit(a + b)
    ensures FailpathString(a + b) == FailpathString(a) + FailpathString(b)
    decreases |b|
  {
    if b != [] {
      var b' := b[..|b| - 1];
      assert (a + b)[..|a + b| - 1] == a + b';
      FailpathStringConcat(a, b');
    } else {
      assert a + b == a;
    }
  }

  lemma FailpathStringOne(d: Decision)
    requires d.line < U32
    ensures FailpathString([d]) == Token(d)
  {
    assert [d][..0] == [];
  }

  /** One replay step: the flag returned and the rest of the path after the
    * cursor (None once the path is used up and cleared), or a mismatch,
    * which is fatal. The cursor `failpath` is a pointer into the path, so it
    * is modelled as the text from the cursor to the end. */
  datatype Step = Replayed(fail: bool, next: Option<string>) | Mismatch

  /** `rest` is what a cursor into `path` points at. */
  predicate SuffixOf(rest: string, path: string)
  {
    |rest| <= |path| && path[|path| - |rest|..] == rest
  }

  /** `func` followed by `]` starts at index `i`. */
  predicate BracketedAt(path: string, i: nat, func: string)
  {
    i + |func| < |path| && path[i..i + |func|] == func && path[i + |func|] == ']'
  }

  /** The single flag character at the cursor, or the end of the path:
    * `F` or `f` fails, `S` or `s` succeeds, the end succeeds and clears
    * the path, and any other character is fatal. */
  function FlagAt(rest: string): (r: Step)
    ensures r.Replayed? && r.next.Some? ==> |rest| > 0 && r.next.value == rest[1..]
    ensures r.Replayed? && r.next.None? ==> rest == [] && !r.fail
    ensures rest != [] && rest[0] in "Ff" ==> r == Replayed(true, Some(rest[1..]))
    ensures rest != [] && rest[0] in "Ss" ==> r == Replayed(false, Some(rest[1..]))
    ensures r.Mismatch? <==> rest != [] && rest[0] !in "FfSs"
  {
    if rest == [] then Replayed(false, None)
    else if rest[0] == 'F' || rest[0] == 'f' then Replayed(true, Some(rest[1..]))
    else if rest[0] == 'S' || rest[0] == 's' then Replayed(false, Some(rest[1..]))
    else Mismatch
  }

  /** The `:line:` stage, once `strtoul` has read `conv` from the start of `t`. */
  function LineChecked(t: string, conv: Conversion, line: nat): (r: Step)
    requires conv.end <= |t|
  {
    if conv.end == |t| || t[conv.end] != ':' then Mismatch
    else if conv.value != line then Mismatch
    else FlagAt(t[conv.end + 1..])
  }

  /** The optional `:line:` stage at the cursor, followed by the flag. */
  function LineStage(rest: string, line: nat): (r: Step)
  {
    if |rest| > 0 && rest[0] == ':' then LineChecked(rest[1..], StrToUL(rest[1..], 10), line)
    else FlagAt(rest)
  }

  /** `do_failpath(func)` with the cursor at `rest` and the script at `line`:
    * an optional `[func]`, an optional `:line:`, then the flag. */
  function DoFailpath(rest: string, func: string, line: nat): (r: Step)
  {
    if |rest| > 0 && rest[0] == '[' then
      if BracketedAt(rest, 1, func) then LineStage(rest[|func| + 2..], line) else Mismatch
    else LineStage(rest, line)
  }

  /** Once the cursor reaches the end, every call returns false and clears it. */
  lemma PathExhausted(func: string, line: nat)
    ensures DoFailpath([], func, line) == Replayed(false, None)
  {
  }

  /** A suffix of a suffix. */
  lemma SuffixTrans(u: string, t: string, s: string)
    requires SuffixOf(u, t) && SuffixOf(t, s)
    ensures SuffixOf(u, s)
  {
    assert s[|s| - |t|..][|t| - |u|..] == s[|s| - |u|..];
  }

  /** What follows the first `k` characters is a suffix. */
  lemma DropSuffix(s: string, k: nat)
    requires k <= |s|
    ensures SuffixOf(s[k..], s)
  {
  }

  /** The flag stage consumes one character. */
  lemma FlagAtAdvances(rest: string)
    ensures var r := FlagAt(rest);
      r.Replayed? && r.next.Some? ==> |r.next.value| < |rest| && SuffixOf(r.next.value, rest)
  {
    if rest != [] {
      DropSuffix(rest, 1);
    }
  }

  lemma LineCheckedAdvances(t: string, conv: Conversion, line: nat)
    requires conv.end <= |t|
    ensures var r := LineChecked(t, conv, line);
      r.Replayed? && r.next.Some? ==> |r.next.value| < |t| && SuffixOf(r.next.value, t)
  {
    if conv.end < |t| && t[conv.end] == ':' && conv.value == line {
      var t' := t[conv.end + 1..];
      DropSuffix(t, conv.end + 1);
      FlagAtAdvances(t');
      var r := FlagAt(t');
      if r.Replayed? && r.next.Some? {
        SuffixTrans(r.next.value, t', t);
      }
    }
  }

  lemma LineStageAdvances(rest: string, line: nat)
    ensures var r := LineStage(rest, line);
      r.Replayed? && r.next.Some? ==> |r.next.value| < |rest| && SuffixOf(r.next.value, rest)
  {
    if |rest| > 0 && rest[0] == ':' {
      var t := rest[1..];
      var conv := StrToUL(t, 10);
      DropSuffix(rest, 1);
      LineCheckedAdvances(t, conv, line);
      var r := LineChecked(t, conv, line);
      if r.Replayed? && r.next.Some? {
        SuffixTrans(r.next.value, t, rest);
      }
    } else {
      FlagAtAdvances(rest);
    }
  }

  /** A step that goes on moves the cursor forward, within the path. */
  lemma DoFailpathAdvances(rest: string, func: string, line: nat)
    ensures var r := DoFailpath(rest, func, line);
      r.Replayed? && r.next.Some? ==> |r.next.value| < |rest| && SuffixOf(r.next.value, rest)
  {
    if |rest| > 0 && rest[0] == '[' {
      if BracketedAt(rest, 1, func) {
        var t := rest[|func| + 2..];
        DropSuffix(rest, |func| + 2);
        LineStageAdvances(t, line);
        var r := LineStage(t, line);
        if r.Replayed? && r.next.Some? {
          SuffixTrans(r.next.value, t, rest);
        }
      }
    } else {
      LineStageAdvances(rest, line);
    }
  }

  predicate NoBracket(s: string) { forall i :: 0 <= i < |s| ==> s[i] != ']' }

  /** A path that opens with `[loc]` names `loc`. */
  lemma OpensWith(loc: string, tail: string)
    ensures var s := "[" + loc + "]" + tail;
      s[0] == '[' && BracketedAt(s, 1, loc) && s[|loc| + 2..] == tail
  {
    var s := "[" + loc + "]" + tail;
    assert s[1..1 + |loc|] == loc;
  }

  /** ... and no other name, when neither holds a `]`. */
  lemma OpensWithOther(loc: string, tail: string, func: string)
    requires NoBracket(loc) && NoBracket(func) && func != loc
    ensures !BracketedAt("[" + loc + "]" + tail, 1, func)
  {
    var s := "[" + loc + "]" + tail;
    if |func| < |loc| {
      assert s[1 + |func|] == loc[|func|];
    } else if |func| > |loc| {
      if 1 + |func| < |s| {
        assert s[1..1 + |func|][|loc|] == ']';
      }
    } else {
      assert s[1..1 + |func|] == loc;
    }
  }

  /** The `:line:` stage of a token: the numeral of `line` between colons,
    * which only a call at that line passes. */
  lemma LineOf(line: nat, f: char, rest: string, v: nat)
    requires line <= ULONG_MAX
    ensures LineStage(":" + NatToDecimal(line) + ":" + [f] + rest, v)
         == if v == line then FlagAt([f] + rest) else Mismatch
  {
    var dec := NatToDecimal(line);
    var r := ":" + [f] + rest;
    assert ":" + dec + ":" + [f] + rest == ":" + (dec + r);
    LineStageColon(dec + r, v);
    StrToULDecimal(line, r);
    NumeralChecked(dec, f, rest, line, v);
  }

  /** A `:` at the cursor hands the text after it to `strtoul`. */
  lemma LineStageColon(t: string, v: nat)
    ensures LineStage(":" + t, v) == LineChecked(t, StrToUL(t, 10), v)
  {
    assert (":" + t)[1..] == t;
  }

  /** The check after a numeral that `strtoul` read as `line`. */
  lemma NumeralChecked(dec: string, f: char, rest: string, line: nat, v: nat)
    ensures var t := dec + (":" + [f] + rest);
      LineChecked(t, Conversion(line, |dec|), v) == if v == line then FlagAt([f] + rest) else Mismatch
  {
    var t := dec + (":" + [f] + rest);
    assert t[|dec|] == ':';
    assert t[|dec| + 1..] == [f] + rest;
  }

  /** How a token begins: its location in brackets, then the rest. */
  lemma TokenParts(d: Decision, rest: string)
    requires d.line <= INT_MAX
    ensures Token(d) + rest == "[" + d.location + "]" + (":" + NatToDecimal(d.line) + ":" + [FlagChar(d.failed)] + rest)
    ensures |Token(d)| == |d.location| + |NatToDecimal(d.line)| + 5
  {
    assert FormatLine(d.line) == NatToDecimal(d.line);
  }

  /** A token is replayed by a call from its location at its line, yields
    * its flag, and leaves the cursor just after it. */
  lemma TokenReplay(d: Decision, rest: string)
    requires d.line <= INT_MAX
    ensures DoFailpath(Token(d) + rest, d.location, d.line) == Replayed(d.failed, Some(rest))
  {
    var f := FlagChar(d.failed);
    var tail := ":" + NatToDecimal(d.line) + ":" + [f] + rest;
    TokenParts(d, rest);
    OpensWith(d.location, tail);
    LineOf(d.line, f, rest, d.line);
    assert ([f] + rest)[1..] == rest;
  }

  /** A call from another location (both free of `]`) or at another line
    * does not match a token: the replay is fatal. */
  lemma TokenRejectsOtherCalls(d: Decision, rest: string, func: string, line: nat)
    requires d.line <= INT_MAX && NoBracket(d.location) && NoBracket(func)
    requires func != d.location || line != d.line
    ensures DoFailpath(Token(d) + rest, func, line) == Mismatch
  {
    var f := FlagChar(d.failed);
    var tail := ":" + NatToDecimal(d.line) + ":" + [f] + rest;
    TokenParts(d, rest);
    OpensWith(d.location, tail);
    if func != d.location {
      OpensWithOther(d.location, tail, func);
    } else {
      LineOf(d.line, f, rest, line);
    }
  }

  /** The ordered (location, line) calls that produced a ledger, and their flags. */
  function CallsOf(ds: seq<Decision>): (r: seq<(string, nat)>)
    ensures |r| == |ds|
    decreases |ds|
  {
    if ds == [] then [] else [(ds[0].location, ds[0].line)] + CallsOf(ds[1..])
  }

  function FlagsOf(ds: seq<Decision>): (r: seq<bool>)
    ensures |r| == |ds|
    decreases |ds|
  {
    if ds == [] then [] else [ds[0].failed] + FlagsOf(ds[1..])
  }

  /** The outcome of replaying a sequence of calls against a path. */
  datatype Run = Run(flags: seq<bool>, cursor: Option<string>) | RunFatal

  /** Successive `do_failpath` calls from the cursor `rest`; the run stops
    * once the path is cleared, since later calls no longer replay. */
  function ReplayCalls(rest: string, calls: seq<(string, nat)>): Run
    decreases |calls|
  {
    if calls == [] then Run([], Some(rest))
    else match DoFailpath(rest, calls[0].0, calls[0].1)
      case Mismatch => RunFatal
      case Replayed(b, None) => Run([b], None)
      case Replayed(b, Some(n)) =>
        match ReplayCalls(n, calls[1..])
        case RunFatal => RunFatal
        case Run(fs, c) => Run([b] + fs, c)
  }

  predicate Replayable(ds: seq<Decision>) { forall i :: 0 <= i < |ds| ==> ds[i].line <= INT_MAX }

  lemma FailpathStringCons(ds: seq<Decision>)
    requires LinesFit(ds) && ds != []
    ensures LinesFit(ds[1..])
    ensures FailpathString(ds) == Token(ds[0]) + FailpathString(ds[1..])
  {
    assert ds == [ds[0]] + ds[1..];
    FailpathStringConcat([ds[0]], ds[1..]);
    FailpathStringOne(ds[0]);
  }

  /** Replaying the printed ledger `ds`, followed by `rest`, with the calls
    * that built it. */
  lemma {:induction false} ReplayFrom(ds: seq<Decision>, rest: string)
    requires Replayable(ds)
    ensures LinesFit(ds)
    ensures ReplayCalls(FailpathString(ds) + rest, CallsOf(ds)) == Run(FlagsOf(ds), Some(rest))
    decreases |ds|
  {
    assert LinesFit(ds);
    if ds == [] {
      assert FailpathString(ds) + rest == rest;
    } else {
      var d, ds' := ds[0], ds[1..];
      FailpathStringCons(ds);
      var b := FailpathString(ds') + rest;
      assert FailpathString(ds) + rest == Token(d) + b;
      TokenReplay(d, b);
      ReplayFrom(ds', rest);
      assert CallsOf(ds)[1..] == CallsOf(ds');
    }
  }

  /** Round trip: replaying the printed ledger with the calls that built it
    * reproduces every recorded flag and leaves the cursor at the end, where
    * the next call returns false and clears the path. */
  lemma ReplayRoundTrip(ds: seq<Decision>)
    requires Replayable(ds)
    ensures LinesFit(ds)
    ensures ReplayCalls(FailpathString(ds), CallsOf(ds)) == Run(FlagsOf(ds), Some([]))
    ensures forall f: string, l: nat :: DoFailpath([], f, l) == Replayed(false, None)
  {
    ReplayFrom(ds, []);
    assert FailpathString(ds) + [] == FailpathString(ds);
  }

  // ------------------------------------------------------------------
  // The at-most-once check against the original path
  // ------------------------------------------------------------------

  /** The check as written: only the FIRST occurrence of `loc` anywhere in the
    * original path is examined, and it must be bracketed and start at or
    * before the cursor. (Index 0 has no `[` before it.) */
  predicate OnceSeenAsWritten(orig: string, cur: nat, loc: string)
  {
    match StrStr(orig, loc)
    case None => false
    case Some(k) => k <= cur && 0 < k && orig[k - 1] == '[' && k + |loc| < |orig| && orig[k + |loc|] == ']'
  }

  /** The intended check: the bracketed token `[loc]` occurs in the part of the
    * path the cursor has passed. */
  predicate OnceSeen(orig: string, cur: nat, loc: string)
  {
    match StrStr(orig, "[" + loc + "]")
    case None => false
    case Some(q) => q + 1 <= cur
  }

  /** Any bracketed occurrence before the cursor is seen, not only the first one. */
  lemma OnceSeenAnyOccurrence(orig: string, cur: nat, loc: string, q: nat)
    requires OccursAt(orig, "[" + loc + "]", q) && q + 1 <= cur
    ensures OnceSeen(orig, cur, loc)
  {
  }

  /** A sequence splits into its three parts around the middle one. */
  lemma MiddleOfThree(x: string, y: string, z: string)
    ensures OccursAt(x + y + z, y, |x|)
  {
    assert forall k :: 0 <= k < |y| ==> (x + y + z)[|x|..|x| + |y|][k] == y[k];
  }

  /** The printed path splits around the token of the decision at index `i`. */
  lemma TokenInLedger(ds: seq<Decision>, i: nat)
    requires LinesFit(ds) && i < |ds|
    ensures LinesFit(ds[..i]) && LinesFit(ds[i + 1..])
    ensures FailpathString(ds) == FailpathString(ds[..i]) + Token(ds[i]) + FailpathString(ds[i + 1..])
  {
    var a, b, c := ds[..i], [ds[i]], ds[i + 1..];
    assert ds == a + b + c;
    FailpathStringConcat(a, b);
    FailpathStringConcat(a + b, c);
    FailpathStringOne(ds[i]);
  }

  /** Wherever a token stands, its bracketed location stands there too. */
  lemma BracketOfToken(x: string, d: Decision, z: string)
    requires d.line < U32
    ensures |Token(d)| >= |d.location| + 2
    ensures OccursAt(x + Token(d) + z, "[" + d.location + "]", |x|)
  {
    var h := "[" + d.location + "]";
    var tail := ":" + FormatLine(d.line) + ":" + [FlagChar(d.failed)];
    assert x + Token(d) + z == x + h + (tail + z);
    MiddleOfThree(x, h, tail + z);
  }

  /** For a path printed from a ledger, a location recorded in any of the first
    * `m` tokens is seen once the cursor has passed them. */
  lemma OnceSeenRecorded(ds: seq<Decision>, m: nat, i: nat)
    requires LinesFit(ds) && i < m <= |ds|
    ensures LinesFit(ds[..m])
    ensures OnceSeen(FailpathString(ds), |FailpathString(ds[..m])|, ds[i].location)
  {
    var d := ds[i];
    var x := FailpathString(ds[..i]);
    TokenInLedger(ds, i);
    TokenInLedger(ds[..m], i);
    assert ds[..m][..i] == ds[..i] && ds[..m][i] == d;
    BracketOfToken(x, d, FailpathString(ds[i + 1..]));
    OnceSeenAnyOccurrence(FailpathString(ds), |FailpathString(ds[..m])|, d.location, |x|);
  }

  /** The ledger of an exploring run in which `once("ab")` was reached twice
    * after an ordinary failure point named "kab": the second `once` call was
    * answered from the ledger and left no token, and the next point is "z". */
  const SampleLedger: seq<Decision> :=
    [Decision("kab", 1, false), Decision("ab", 1, true), Decision("z", 1, true)]

  lemma SampleTokens()
    ensures LinesFit(SampleLedger) && LinesFit(SampleLedger[..2])
    ensures FailpathString(SampleLedger[..2]) == "[kab]:1:S[ab]:1:F"
    ensures FailpathString(SampleLedger) == "[kab]:1:S[ab]:1:F[z]:1:F"
  {
    var a, b, c := SampleLedger[0], SampleLedger[1], SampleLedger[2];
    assert FormatLine(1) == "1" by { assert NatToDecimal(1) == "1"; }
    assert Token(a) == "[kab]:1:S";
    assert Token(b) == "[ab]:1:F";
    assert Token(c) == "[z]:1:F";
    assert SampleLedger[..2] == [a] + [b];
    assert SampleLedger == [a] + [b] + [c];
    FailpathStringOne(a);
    FailpathStringOne(b);
    FailpathStringOne(c);
    FailpathStringConcat([a], [b]);
    FailpathStringConcat([a] + [b], [c]);
  }

  /** In the sample path, "ab" first occurs inside "[kab]", at index 2. */
  lemma SampleFirstOccurrence(path: string)
    requires path == "[kab]:1:S[ab]:1:F[z]:1:F"
    ensures StrStr(path, "ab") == Some(2) && path[1] == 'k'
  {
    assert path[0] == '[';
    assert path[1] == 'k';
    assert path[2] == 'a';
    assert path[3] == 'b';
    assert OccursAt(path, "ab", 2) by { assert path[2..4] == "ab"; }
    assert FindFrom(path, "ab", 2) == Some(2);
    assert !OccursAt(path, "ab", 1) by { assert path[1..3][0] == 'k'; }
    assert FindFrom(path, "ab", 1) == Some(2);
    assert !OccursAt(path, "ab", 0) by { assert path[0..2][0] == '['; }
    assert FindFrom(path, "ab", 0) == Some(2);
  }

  /** In the sample path, the token at the cursor 17 is "[z]", not "[ab]". */
  lemma SampleNextToken(path: string)
    requires path == "[kab]:1:S[ab]:1:F[z]:1:F"
    ensures DoFailpath(path[17..], "ab", 1) == Mismatch
  {
    var rest := path[17..];
    assert rest[0] == '[';
    assert !BracketedAt(rest, 1, "ab") by { assert rest[1..3][0] == 'z'; }
  }

  /** As written, replaying that path misses the bracketed "[ab]" because "ab"
    * first occurs inside "[kab]", so the second `once("ab")` consumes the "[z]"
    * token and the replay is fatal; the intended check answers false instead. */
  lemma OnceSeenAsWrittenMissesToken()
    ensures LinesFit(SampleLedger) && LinesFit(SampleLedger[..2])
    ensures var path, cur := FailpathString(SampleLedger), |FailpathString(SampleLedger[..2])|;
      cur <= |path| && !OnceSeenAsWritten(path, cur, "ab") && OnceSeen(path, cur, "ab")
      && DoFailpath(path[cur..], "ab", 1) == Mismatch
  {
    SampleTokens();
    var path := FailpathString(SampleLedger);
    assert |FailpathString(SampleLedger[..2])| == 17;
    SampleFirstOccurrence(path);
    SampleNextToken(path);
    assert SampleLedger[1].location == "ab";
    OnceSeenRecorded(SampleLedger, 2, 1);
  }

  /** A child that ended other than by `EXIT_SUCCESS`, `EXIT_SCRIPTFAIL` or
    * `EXIT_SILENT` (a signal included) is reported by its parent. */
  predicate Reported(fork: Fork) {
    fork.InParent? && !fork.status.ExitedSuccess? && !fork.status.ExitedScriptFail? && !fork.status.ExitedSilent?
  }

  /** Whether the decision recorded on this side of the fork is a failure:
    * the child's always is, the parent's only when it reports the child. */
  predicate MarkedFailed(fork: Fork) { fork.InChild? || Reported(fork) }

  /** What the caller observes on this side of the fork. */
  function AfterFork(fork: Fork): (o: Outcome)
    ensures o == Returned(true) <==> fork.InChild?
    ensures o == Returned(false) <==> fork.InParent? && (fork.status.ExitedSuccess? || fork.status.ExitedScriptFail?)
  {
    match fork
    case ForkFailed => Fatal
    case InChild => Returned(true)
    case InParent(st) => if st.ExitedSuccess? || st.ExitedScriptFail? then Returned(false) else ExitSilent
  }

  // ------------------------------------------------------------------
  // The controller and its global state
  // ------------------------------------------------------------------

  class Controller {
    /** --failtest */
    var failtest: bool
    /** suppress_failtest: non-zero while failures are not to be injected */
    var suppress: nat
    var fails: nat
    var excessiveFails: nat
    var failpoints: nat
    /** --failtest-no-report */
    var noReport: Option<string>
    /** the ledger `decisions`, oldest first */
    var decisions: seq<Decision>
    /** orig_failpath, and the cursor `failpath` into it (None for NULL) */
    var origPath: string
    var failpath: Option<string>
    /** the `static bool warned` of should_i_fail */
    var warned: bool
    /** how many times the excessive-failure warning was issued */
    ghost var warnings: nat
    /** the failure path a parent reports for a child that ended badly */
    var report: Option<string>

    ghost predicate Valid()
      reads this
    {
      && (failpath.Some? ==> SuffixOf(failpath.value, origPath))
      && IsU32(suppress) && IsU32(fails) && IsU32(excessiveFails) && IsU32(failpoints)
      && LinesFit(decisions)
      && warnings == (if warned then 1 else 0)
    }

    /** The state after option parsing: `--failtest`, `--failpath`, `--failtest-no-report`. */
    constructor (explore: bool, path: Option<string>, quiet: Option<string>)
      ensures Valid()
      ensures failtest == explore && noReport == quiet && suppress == 0
      ensures fails == 0 && excessiveFails == 2 && failpoints == 0 && decisions == []
      ensures origPath == (if path.Some? then path.value else "")
      ensures failpath == path
      ensures !warned && report == None
    {
      failtest := explore;
      suppress := 0;
      fails := 0;
      excessiveFails := 2;
      failpoints := 0;
      noReport := quiet;
      decisions := [];
      origPath := if path.Some? then path.value else "";
      failpath := path;
      warned := false;
      warnings := 0;
      report := None;
    }

    /** `suppress_failtest++`, as callers do around code that must not fail. */
    method Suppress()
      requires Valid() && suppress + 1 < U32
      modifies this`suppress
      ensures Valid() && suppress == old(suppress) + 1
    {
      suppress := suppress + 1;
    }

    /** `suppress_failtest--`. */
    method Unsuppress()
      requires Valid() && suppress > 0
      modifies this`suppress
      ensures Valid() && suppress == old(suppress) - 1
    {
      suppress := suppress - 1;
    }

    /** Replay mode of both entry points: one `do_failpath` step. */
    method Replay(func: string, line: nat) returns (o: Outcome)
      requires Valid() && failpath.Some?
      modifies this`failpath
      ensures Valid()
      ensures var st := DoFailpath(old(failpath).value, func, line);
        if st.Mismatch? then o == Fatal && failpath == old(failpath)
        else o == Returned(st.fail) && failpath == st.next
    {
      var st := DoFailpath(failpath.value, func, line);
      if st.Mismatch? {
        return Fatal;
      }
      DoFailpathAdvances(failpath.value, func, line);
      if st.next.Some? {
        SuffixTrans(st.next.value, failpath.value, origPath);
      }
      failpath := st.next;
      return Returned(st.fail);
    }

    /** `should_i_fail(func)` called on script line `line`; after the fork the
      * call continues on side `fork`. `forkPeer` says that the child must also
      * fork the program it talks to (`fork_other_program`). */
    method ShouldIFail(func: string, line: nat, fork: Fork) returns (o: Outcome, forkPeer: bool)
      requires Valid() && line < U32
      modifies this
      ensures Valid()
      ensures forkPeer <==> (old(suppress) == 0 && old(failpath).None? && old(failtest) && fork.InChild?)
      // suppression: nothing happens
      ensures old(suppress) != 0 ==>
        o == Returned(false) && decisions == old(decisions) && failpath == old(failpath)
        && fails == old(fails) && failpoints == old(failpoints) && warned == old(warned) && report == old(report)
      // replay: one step of the path, nothing else changes
      ensures old(suppress) == 0 && old(failpath).Some? ==>
        var st := DoFailpath(old(failpath).value, func, line);
        (if st.Mismatch? then o == Fatal else o == Returned(st.fail) && failpath == st.next)
        && decisions == old(decisions) && fails == old(fails) && failpoints == old(failpoints)
        && warned == old(warned) && report == old(report)
      // exploration: every call is counted; only with --failtest is it decided
      ensures old(suppress) == 0 && old(failpath).None? ==>
        failpoints == Wrap(old(failpoints) + 1, U32) && failpath == None
      ensures old(suppress) == 0 && old(failpath).None? && !old(failtest) ==>
        o == Returned(false) && decisions == old(decisions) && fails == old(fails)
        && warned == old(warned) && report == old(report)
      ensures old(suppress) == 0 && old(failpath).None? && old(failtest) ==>
        && warned == (old(warned) || old(fails) > old(excessiveFails))
        && decisions == old(decisions) + [Decision(func, line, MarkedFailed(fork))]
        && o == AfterFork(fork)
        && fails == (if fork.InChild? && (noReport.None? || StrStr(func, noReport.value).None?)
                     then Wrap(old(fails) + 1, U32) else old(fails))
        && report == (if Reported(fork) then Some(FailpathString(decisions)) else old(report))
      ensures excessiveFails == old(excessiveFails) && suppress == old(suppress)
      ensures origPath == old(origPath) && failtest == old(failtest) && noReport == old(noReport)
    {
      forkPeer := false;
      if suppress != 0 {
        return Returned(false), false;
      }
      if failpath.Some? {
        o := Replay(func, line);
        return;
      }
      failpoints := Wrap(failpoints + 1, U32);
      if !failtest {
        return Returned(false), false;
      }
      WarnExcessive();
      ghost var before := decisions;
      decisions := decisions + [Decision(func, line, false)];
      o, forkPeer := Settle(before, func, line, fork);
    }

    /** The warning about excessive failures, issued once. */
    method WarnExcessive()
      requires Valid()
      modifies this`warned, this`warnings
      ensures Valid() && warned == (old(warned) || fails > excessiveFails)
    {
      if fails > excessiveFails {
        if !warned {
          warnings := warnings + 1;
        }
        warned := true;
      }
    }

    /** After the fork, with the new decision recorded as a success: the
      * child fails it, the parent keeps it or reports the child. */
    method Settle(ghost before: seq<Decision>, func: string, line: nat, fork: Fork) returns (o: Outcome, forkPeer: bool)
      requires Valid() && decisions == before + [Decision(func, line, false)]
      modifies this`decisions, this`fails, this`report
      ensures Valid()
      ensures forkPeer <==> fork.InChild?
      ensures decisions == before + [Decision(func, line, MarkedFailed(fork))]
      ensures o == AfterFork(fork)
      ensures fails == (if fork.InChild? && (noReport.None? || StrStr(func, noReport.value).None?)
                        then Wrap(old(fails) + 1, U32) else old(fails))
      ensures report == (if Reported(fork) then Some(FailpathString(decisions)) else old(report))
    {
      forkPeer := false;
      var n := |decisions| - 1;
      match fork
      case ForkFailed =>
        o := Fatal;
      case InChild =>
        decisions := decisions[n := Decision(func, line, true)];
        if noReport.None? || StrStr(func, noReport.value).None? {
          fails := Wrap(fails + 1, U32);
        }
        o, forkPeer := Returned(true), true;
      case InParent(st) =>
        if st.ExitedSuccess? || st.ExitedScriptFail? {
          o := Returned(false);
        } else {
          if !st.ExitedSilent? {
            decisions := decisions[n := Decision(func, line, true)];
            report := Some(FailpathString(decisions));
          }
          o := ExitSilent;
        }
    }

    /** Whether some ledger entry has this location (the loop over `decisions`). */
    method InLedger(location: string) returns (found: bool)
      requires Valid()
      ensures found <==> exists i :: 0 <= i < |decisions| && decisions[i].location == location
    {
      var i := 0;
      found := false;
      while i < |decisions|
        invariant 0 <= i <= |decisions|
        invariant forall j :: 0 <= j < i ==> decisions[j].location != location
      {
        if decisions[i].location == location {
          return true;
        }
        i := i + 1;
      }
    }

    /** `should_i_fail_once(location)`: a location is failed at most once.
      * In replay the check for a location already passed is the corrected
      * `OnceSeen`. */
    method ShouldIFailOnce(location: string, line: nat, fork: Fork) returns (o: Outcome, forkPeer: bool)
      requires Valid() && line < U32
      modifies this
      ensures Valid()
      ensures forkPeer ==> o == Returned(true)
      ensures excessiveFails == (if old(suppress) == 0 && old(failpath).None? && o == Returned(true)
                                 then Wrap(old(excessiveFails) + 1, U32) else old(excessiveFails))
      ensures suppress == old(suppress) && origPath == old(origPath) && failtest == old(failtest) && noReport == old(noReport)
      // suppressed, or a location already tried: false, and nothing else changes
      ensures old(suppress) != 0 ||
              (old(failpath).Some? && OnceSeen(old(origPath), |old(origPath)| - |old(failpath).value|, location)) ||
              (old(failpath).None? && exists i :: 0 <= i < |old(decisions)| && old(decisions)[i].location == location) ==>
        o == Returned(false) && !forkPeer && decisions == old(decisions) && failpath == old(failpath)
        && fails == old(fails) && failpoints == old(failpoints) && warned == old(warned) && report == old(report)
      // replay of a location not yet passed: one step of the path
      ensures old(suppress) == 0 && old(failpath).Some? && !OnceSeen(old(origPath), |old(origPath)| - |old(failpath).value|, location) ==>
        var st := DoFailpath(old(failpath).value, location, line);
        (if st.Mismatch? then o == Fatal else o == Returned(st.fail) && failpath == st.next)
        && !forkPeer && decisions == old(decisions) && fails == old(fails) && failpoints == old(failpoints)
        && warned == old(warned) && report == old(report)
      // exploration of a new location: what `should_i_fail` does
      ensures old(suppress) == 0 && old(failpath).None? &&
              !(exists i :: 0 <= i < |old(decisions)| && old(decisions)[i].location == location) ==>
        && failpoints == Wrap(old(failpoints) + 1, U32) && failpath == None
        && (!old(failtest) ==>
              o == Returned(false) && !forkPeer && decisions == old(decisions) && fails == old(fails)
              && warned == old(warned) && report == old(report))
        && (old(failtest) ==>
              && warned == (old(warned) || old(fails) > old(excessiveFails))
              && decisions == old(decisions) + [Decision(location, line, MarkedFailed(fork))]
              && o == AfterFork(fork) && (forkPeer <==> fork.InChild?)
              && fails == (if fork.InChild? && (noReport.None? || StrStr(location, noReport.value).None?)
                           then Wrap(old(fails) + 1, U32) else old(fails))
              && report == (if Reported(fork) then Some(FailpathString(decisions)) else old(report)))
    {
      forkPeer := false;
      if suppress != 0 {
        return Returned(false), false;
      }
      if failpath.Some? {
        if OnceSeen(origPath, |origPath| - |failpath.value|, location) {
          return Returned(false), false;
        }
        o := Replay(location, line);
        return;
      }
      var seen := InLedger(location);
      if seen {
        return Returned(false), false;
      }
      o, forkPeer := ShouldIFail(location, line, fork);
      if o == Returned(true) {
        excessiveFails := Wrap(excessiveFails + 1, U32);
      }
    }
  }
}
