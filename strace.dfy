/**
 * The `strace` command: turns the reporting of system calls and user
 * copies on, or with `off`, off again.
 */
module Strace {
  /** The command's result and the new value of the `strace` flag. */
  datatype Traced = Traced(ok: bool, on: bool)

  /** `parse_strace(argc, argv)`: switching to the state already in force
    * is refused, and so is any other form. */
  function StraceOf(on: bool, args: seq<string>): Traced
    requires |args| >= 1
  {
    if |args| == 1 then (if on then Traced(false, on) else Traced(true, true))
    else if |args| == 2 && args[1] == "off" then (if !on then Traced(false, on) else Traced(true, false))
    else Traced(false, on)
  }

  /** The command succeeds exactly when it changes the flag, and then sets
    * it to what it names; a refused command leaves the flag alone. */
  lemma StraceRules(on: bool, args: seq<string>)
    requires |args| >= 1
    ensures StraceOf(on, args).ok <==> StraceOf(on, args).on != on
    ensures |args| == 1 ==> StraceOf(on, args).on
    ensures |args| == 2 && args[1] == "off" ==> !StraceOf(on, args).on
    ensures !(|args| == 1 || (|args| == 2 && args[1] == "off")) ==> StraceOf(on, args) == Traced(false, on)
  {
  }

  /** `strace` then `strace off` returns to the starting state, and so
    * does the reverse order from the traced state. */
  lemma OnThenOff(on: bool)
    ensures !on ==> StraceOf(StraceOf(on, ["strace"]).on, ["strace", "off"]) == Traced(true, on)
    ensures on ==> StraceOf(StraceOf(on, ["strace", "off"]).on, ["strace"]) == Traced(true, on)
  {
  }

  /** The global `strace` flag. */
  class Tracer {
    var strace: bool

    constructor ()
      ensures !strace
    {
      strace := false;
    }

    /** `parse_strace(argc, argv)`. */
    method ParseStrace(args: seq<string>) returns (ok: bool)
      requires |args| >= 1
      modifies this
      ensures Traced(ok, strace) == StraceOf(old(strace), args)
    {
      if |args| == 1 {
        if strace {
          return false;
        }
        strace := true;
        return true;
      }
      if |args| == 2 && args[1] == "off" {
        if !strace {
          return false;
        }
        strace := false;
        return true;
      }
      return false;
    }
  }
}
