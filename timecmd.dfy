/**
 * The `time` command: query the simulated clock, or advance it by a
 * relative amount, to an absolute second, or to the last pending timer.
 * `jiffies` is an `unsigned long`; the step is passed to
 * `increment_time(unsigned int)`, whose effect on the clock is modelled as
 * advancing `jiffies` by that step.
 */
module TimeCmd {
  import opened Wrappers
  import opened CInt
  import opened CLib

  const HZ: int := 100

  /** What `time` did: its result, and the step it passed to
    * `increment_time`, if any. */
  datatype Timed = Timed(ok: bool, step: Option<nat>)

  /** The clock after `increment_time(step)`. */
  function Advanced(jiffies: nat, step: Option<nat>): nat
  {
    match step
    case None => jiffies
    case Some(n) => Wrap(jiffies + n, U64)
  }

  /** `find_last_timer` as written: 0 for no timers, otherwise the expiry of
    * the last timer of the sorted list, returned as an `int`. */
  function LastTimerAsWritten(timers: seq<nat>): (r: int)
    ensures IsInt32(r)
  {
    if |timers| == 0 then 0 else ToInt32(Wrap(timers[|timers| - 1], U32))
  }

  /** The time `+infinity` runs to: the last expiry, or now when no timer
    * is pending. */
  function LastTimer(jiffies: nat, timers: seq<nat>): (r: int)
    ensures |timers| == 0 ==> r == jiffies
    ensures |timers| > 0 ==> r == LastTimerAsWritten(timers)
  {
    if |timers| == 0 then jiffies else ToInt32(Wrap(timers[|timers| - 1], U32))
  }

  /** `time +infinity` as written: with no timer pending it passes
    * `0 - jiffies`, reduced to `unsigned int`. */
  function InfinityStepAsWritten(jiffies: nat, timers: seq<nat>): nat
  {
    Wrap(LastTimerAsWritten(timers) - jiffies, U32)
  }

  /** At 5 seconds with no timer pending, `+infinity` as written moves the
    * clock on by almost 2^32 jiffies; the corrected command does not move
    * it. */
  lemma InfinityWithoutTimers()
    ensures InfinityStepAsWritten(500, []) == U32 - 500
    ensures TimeOf(500, [], ["time", "+infinity"]) == Timed(true, Some(0))
  {
  }

  /** `atoi(s) * HZ`, an `int` product (the C code does not guard its
    * overflow; the model reduces it as two's complement). */
  function Seconds(s: string): (r: int)
    ensures IsInt32(r)
  {
    ToInt32(Wrap(Atoi(s) * HZ, U32))
  }

  /** `time_cmd(argc, argv)` with the clock at `jiffies` and the pending
    * timers' expiries in list order. */
  function TimeOf(jiffies: nat, timers: seq<nat>, args: seq<string>): (r: Timed)
    requires |args| >= 1
  {
    if |args| == 1 then Timed(true, None)
    else if |args| > 2 then Timed(false, None)
    else
      var a := args[1];
      if a == "+infinity" then Timed(true, Some(Wrap(LastTimer(jiffies, timers) - jiffies, U32)))
      else if |a| > 0 && a[0] == '+' then Timed(true, Some(Wrap(Seconds(a[1..]), U32)))
      else if |a| > 0 && a[0] == '-' then Timed(false, None)
      else if Atoi(a) == 0 then Timed(false, None)
      else if Wrap(Seconds(a), U64) < jiffies then Timed(false, None)
      else Timed(true, Some(Wrap(Seconds(a) - jiffies, U32)))
  }

  /** No argument reports the time; more than one, or a leading `-`, is
    * refused; nothing refused moves the clock. */
  lemma TimeRules(jiffies: nat, timers: seq<nat>, args: seq<string>)
    requires |args| >= 1
    ensures |args| == 1 ==> TimeOf(jiffies, timers, args) == Timed(true, None)
    ensures |args| > 2 ==> TimeOf(jiffies, timers, args) == Timed(false, None)
    ensures |args| == 2 && |args[1]| > 0 && args[1][0] == '-' ==> TimeOf(jiffies, timers, args) == Timed(false, None)
    ensures !TimeOf(jiffies, timers, args).ok ==> TimeOf(jiffies, timers, args).step.None?
  {
  }

  /** `+N` moves the clock on by `N * HZ`. */
  lemma RelativeAdvance(jiffies: nat, timers: seq<nat>, n: string)
    requires jiffies < U64 && 0 <= Atoi(n) * HZ <= INT_MAX
    requires "+" + n != "+infinity"
    ensures TimeOf(jiffies, timers, ["time", "+" + n]) == Timed(true, Some(Atoi(n) * HZ))
    ensures Advanced(jiffies, TimeOf(jiffies, timers, ["time", "+" + n]).step) == Wrap(jiffies + Atoi(n) * HZ, U64)
  {
    assert ("+" + n)[1..] == n;
  }

  /** An absolute second `t`: 0 (or no number) is refused, a time in the
    * past is refused, and otherwise the clock ends at `t * HZ`. */
  lemma AbsoluteAdvance(jiffies: nat, timers: seq<nat>, a: string)
    requires jiffies < U64 && a != "+infinity" && !(|a| > 0 && (a[0] == '+' || a[0] == '-'))
    requires 0 <= Atoi(a) * HZ <= INT_MAX
    ensures Atoi(a) == 0 ==> TimeOf(jiffies, timers, ["time", a]) == Timed(false, None)
    ensures Atoi(a) != 0 && Atoi(a) * HZ < jiffies ==> TimeOf(jiffies, timers, ["time", a]) == Timed(false, None)
    ensures Atoi(a) != 0 && jiffies <= Atoi(a) * HZ && Atoi(a) * HZ - jiffies < U32 ==>
      TimeOf(jiffies, timers, ["time", a]).ok && Advanced(jiffies, TimeOf(jiffies, timers, ["time", a]).step) == Atoi(a) * HZ
  {
  }

  /** `+infinity` runs the clock to the last pending timer, and leaves it
    * where it is when none is pending. */
  lemma InfinityAdvance(jiffies: nat, timers: seq<nat>)
    requires |timers| > 0 ==> jiffies <= timers[|timers| - 1] <= INT_MAX
    ensures TimeOf(jiffies, timers, ["time", "+infinity"]).ok
    ensures |timers| > 0 && jiffies < U64 ==>
      Advanced(jiffies, TimeOf(jiffies, timers, ["time", "+infinity"]).step) == timers[|timers| - 1]
    ensures |timers| == 0 && jiffies < U64 ==>
      Advanced(jiffies, TimeOf(jiffies, timers, ["time", "+infinity"]).step) == jiffies
  {
  }

  /** The clock and the list of pending timers. */
  class Clock {
    var jiffies: nat
    var timers: seq<nat>

    constructor ()
      ensures jiffies == 0 && timers == []
    {
      jiffies := 0;
      timers := [];
    }

    /** `time_cmd(argc, argv)` followed by its `increment_time` call. */
    method Time(args: seq<string>) returns (ok: bool)
      requires |args| >= 1
      modifies this
      ensures ok == TimeOf(old(jiffies), old(timers), args).ok
      ensures jiffies == Advanced(old(jiffies), TimeOf(old(jiffies), old(timers), args).step)
      ensures timers == old(timers)
    {
      var r := TimeOf(jiffies, timers, args);
      jiffies := Advanced(jiffies, r.step);
      return r.ok;
    }
  }
}
