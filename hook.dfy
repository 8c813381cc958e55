/**
 * The `hook` command: inserts a one-shot netfilter hook that returns a
 * fixed verdict, and removes all such hooks after the next `gen_ip`.
 * Registration with netfilter is recorded as a sequence of calls.
 */
module Hook {
  import opened Wrappers
  import opened CLib
  import Core

  const PF_INET: int := 2

  const NF_IP_PRE_ROUTING: int := 0
  const NF_IP_LOCAL_IN: int := 1
  const NF_IP_FORWARD: int := 2
  const NF_IP_LOCAL_OUT: int := 3
  const NF_IP_POST_ROUTING: int := 4

  /** `hook_accept`, `hook_drop` and `hook_queue`. */
  datatype HookFn = HookAccept | HookDrop | HookQueue

  /** The fields of `struct nf_hook_ops` the command fills in. */
  datatype HookOps = HookOps(pf: int, hooknum: int, priority: int, hook: HookFn)

  /** `__nf_register_hook` and `nf_unregister_hook`. */
  datatype NfCall = Register(ops: HookOps) | Unregister(ops: HookOps)

  /** The verdict a hook function returns for every packet. */
  function VerdictOf(f: HookFn): (v: int)
    ensures v in {Core.NF_ACCEPT, Core.NF_DROP, Core.NF_QUEUE}
  {
    match f
    case HookAccept => Core.NF_ACCEPT
    case HookDrop => Core.NF_DROP
    case HookQueue => Core.NF_QUEUE
  }

  /** The hook point a name selects; every one is an IPv4 hook. */
  function HookNamed(name: string): Option<int>
  {
    if name == "IP_PRE_ROUTING" then Some(NF_IP_PRE_ROUTING)
    else if name == "IP_POST_ROUTING" then Some(NF_IP_POST_ROUTING)
    else if name == "IP_LOCAL_IN" then Some(NF_IP_LOCAL_IN)
    else if name == "IP_LOCAL_OUT" then Some(NF_IP_LOCAL_OUT)
    else if name == "IP_FORWARD" then Some(NF_IP_FORWARD)
    else None
  }

  /** The hook function a verdict name selects: only DROP, ACCEPT and
    * QUEUE. */
  function HookFnNamed(name: string): Option<HookFn>
  {
    if name == "DROP" then Some(HookDrop)
    else if name == "ACCEPT" then Some(HookAccept)
    else if name == "QUEUE" then Some(HookQueue)
    else None
  }

  /** A verdict name selects the hook returning the verdict of that name;
    * STOLEN and REPEAT select nothing. */
  lemma VerdictNamesAgree(name: string)
    ensures HookFnNamed(name).Some? ==> Core.NfRetval(VerdictOf(HookFnNamed(name).value)) == "NF_" + name
    ensures HookFnNamed("STOLEN").None? && HookFnNamed("REPEAT").None?
  {
  }

  /** What `hook` did: its result, the new hook list, and the registration
    * made. */
  datatype HookResult = HookResult(ok: bool, hooks: seq<HookOps>, call: Option<NfCall>)

  /** `hook_cmd(argc, argv)`: the listing form succeeds; otherwise it takes
    * exactly a hook name, a priority and a verdict name, prepends the new
    * hook and registers it. */
  function HookCmdOf(hooks: seq<HookOps>, args: seq<string>): HookResult
    requires |args| >= 1
  {
    if |args| == 1 then HookResult(true, hooks, None)
    else if |args| != 4 then HookResult(false, hooks, None)
    else
      match (HookNamed(args[1]), HookFnNamed(args[3]))
      case (Some(num), Some(f)) =>
        var ops := HookOps(PF_INET, num, Atoi(args[2]), f);
        HookResult(true, [ops] + hooks, Some(Register(ops)))
      case _ => HookResult(false, hooks, None)
  }

  /** The unregistrations `hook_post_cleanup` makes, in list order. */
  function Unregistrations(hooks: seq<HookOps>): seq<NfCall>
    decreases |hooks|
  {
    if |hooks| == 0 then []
    else Unregistrations(hooks[..|hooks| - 1]) + [Unregister(hooks[|hooks| - 1])]
  }

  /** One unregistration per hook, in list order. */
  lemma {:induction false} UnregistrationsInOrder(hooks: seq<HookOps>)
    ensures |Unregistrations(hooks)| == |hooks|
    ensures forall k :: 0 <= k < |hooks| ==> Unregistrations(hooks)[k] == Unregister(hooks[k])
    decreases |hooks|
  {
    if |hooks| > 0 {
      UnregistrationsInOrder(hooks[..|hooks| - 1]);
    }
  }

  /** `hook_post_cleanup(command)`: after `gen_ip` every hook is
    * unregistered and the list emptied; after any other command nothing
    * happens. It always succeeds. */
  function CleanupOf(hooks: seq<HookOps>, command: string): (seq<HookOps>, seq<NfCall>)
  {
    if command == "gen_ip" then ([], Unregistrations(hooks)) else (hooks, [])
  }

  /** The hooks each call sequence leaves registered with netfilter. */
  function Live(calls: seq<NfCall>): multiset<HookOps>
    decreases |calls|
  {
    if |calls| == 0 then multiset{}
    else
      match calls[|calls| - 1]
      case Register(ops) => Live(calls[..|calls| - 1]) + multiset{ops}
      case Unregister(ops) => Live(calls[..|calls| - 1]) - multiset{ops}
  }

  /** One more call adds or removes one registration. */
  lemma LiveAppend(calls: seq<NfCall>, c: NfCall)
    ensures Live(calls + [c]) == if c.Register? then Live(calls) + multiset{c.ops} else Live(calls) - multiset{c.ops}
  {
    assert (calls + [c])[..|calls|] == calls;
  }

  /** Unregistering a list of hooks takes each of them out once. */
  lemma {:induction false} LiveOfUnregistrations(calls: seq<NfCall>, hooks: seq<HookOps>)
    ensures Live(calls + Unregistrations(hooks)) == Live(calls) - multiset(hooks)
    decreases |hooks|
  {
    if |hooks| == 0 {
      assert calls + Unregistrations(hooks) == calls;
    } else {
      var init := hooks[..|hooks| - 1];
      var last := hooks[|hooks| - 1];
      var before := calls + Unregistrations(init);
      assert calls + Unregistrations(hooks) == before + [Unregister(last)];
      LiveOfUnregistrations(calls, init);
      LiveAppend(before, Unregister(last));
      assert hooks == init + [last];
      assert multiset(hooks) == multiset(init) + multiset{last};
    }
  }

  /** The command keeps the records straight: when the hooks registered
    * are those on the list, they still are after a `hook` command and
    * after a clean-up; after `gen_ip` none is left. */
  lemma {:induction false} HookKeepsRegistrations(hooks: seq<HookOps>, calls: seq<NfCall>, args: seq<string>, command: string)
    requires |args| >= 1 && Live(calls) == multiset(hooks)
    ensures var h := HookCmdOf(hooks, args);
      Live(calls + (if h.call.Some? then [h.call.value] else [])) == multiset(h.hooks)
    ensures var (after, made) := CleanupOf(hooks, command);
      Live(calls + made) == multiset(after)
    ensures command == "gen_ip" ==> Live(calls + CleanupOf(hooks, command).1) == multiset{}
  {
    var h := HookCmdOf(hooks, args);
    if h.call.Some? {
      assert (calls + [h.call.value])[..|calls|] == calls;
    } else {
      assert calls + [] == calls;
    }
    if command == "gen_ip" {
      LiveOfUnregistrations(calls, hooks);
    } else {
      assert calls + [] == calls;
    }
  }

  /** The rules of `hook`: other argument counts are refused, an unknown
    * hook or verdict name registers nothing, and a new hook goes to the
    * front of the list with the named hook point and verdict and the
    * priority read by `atoi`. */
  lemma HookRules(hooks: seq<HookOps>, args: seq<string>)
    requires |args| >= 1
    ensures |args| != 1 && |args| != 4 ==> HookCmdOf(hooks, args) == HookResult(false, hooks, None)
    ensures |args| == 4 && (HookNamed(args[1]).None? || HookFnNamed(args[3]).None?) ==>
      HookCmdOf(hooks, args) == HookResult(false, hooks, None)
    ensures var h := HookCmdOf(hooks, args);
      |args| == 4 && h.ok ==>
        |h.hooks| == |hooks| + 1 && h.hooks[1..] == hooks && h.call == Some(Register(h.hooks[0])) &&
        h.hooks[0] == HookOps(PF_INET, HookNamed(args[1]).value, Atoi(args[2]), HookFnNamed(args[3]).value)
  {
  }

  /** The hook-point label `print_hook` shows, as written: POST_ROUTING is
    * shown as `IP_PRE_ROUTING`. */
  function PointLabelAsWritten(ops: HookOps): string
  {
    if ops.pf != PF_INET then "Non-IPv4"
    else if ops.hooknum == NF_IP_PRE_ROUTING then "IP_PRE_ROUTING"
    else if ops.hooknum == NF_IP_POST_ROUTING then "IP_PRE_ROUTING"
    else if ops.hooknum == NF_IP_FORWARD then "IP_FORWARD"
    else if ops.hooknum == NF_IP_LOCAL_IN then "IP_LOCAL_IN"
    else if ops.hooknum == NF_IP_LOCAL_OUT then "IP_LOCAL_OUT"
    else "UNKNOWN"
  }

  /** The hook-point label with POST_ROUTING shown by its own name. */
  function PointLabel(ops: HookOps): string
  {
    if ops.pf != PF_INET then "Non-IPv4"
    else if ops.hooknum == NF_IP_PRE_ROUTING then "IP_PRE_ROUTING"
    else if ops.hooknum == NF_IP_POST_ROUTING then "IP_POST_ROUTING"
    else if ops.hooknum == NF_IP_FORWARD then "IP_FORWARD"
    else if ops.hooknum == NF_IP_LOCAL_IN then "IP_LOCAL_IN"
    else if ops.hooknum == NF_IP_LOCAL_OUT then "IP_LOCAL_OUT"
    else "UNKNOWN"
  }

  /** The verdict label `print_hook` shows. */
  function FnLabel(f: HookFn): string
  {
    match f
    case HookAccept => "ACCEPT"
    case HookDrop => "DROP"
    case HookQueue => "QUEUE"
  }

  /** `hook IP_POST_ROUTING 0 ACCEPT` is listed as an IP_PRE_ROUTING hook. */
  lemma PostRoutingMislabelled()
    ensures var h := HookCmdOf([], ["hook", "IP_POST_ROUTING", "0", "ACCEPT"]);
      h.ok && PointLabelAsWritten(h.hooks[0]) == "IP_PRE_ROUTING" && h.hooks[0].hooknum == NF_IP_POST_ROUTING
  {
  }

  /** The listing reads back: a hook the command made is listed with
    * labels that name its hook point and verdict again. */
  lemma LabelsRoundTrip(hooks: seq<HookOps>, args: seq<string>)
    requires |args| == 4 && HookCmdOf(hooks, args).ok
    ensures var ops := HookCmdOf(hooks, args).hooks[0];
      HookNamed(PointLabel(ops)) == Some(ops.hooknum) && HookFnNamed(FnLabel(ops.hook)) == Some(ops.hook)
  {
  }

  /** The `hooks` list and the calls made to netfilter. */
  class HookTable {
    var hooks: seq<HookOps>
    var calls: seq<NfCall>

    ghost predicate Valid()
      reads this
    {
      Live(calls) == multiset(hooks)
    }

    constructor ()
      ensures hooks == [] && calls == [] && Valid()
    {
      hooks := [];
      calls := [];
    }

    /** `hook_cmd(argc, argv)`. */
    method HookCmd(args: seq<string>) returns (ok: bool)
      requires |args| >= 1
      modifies this
      ensures var h := HookCmdOf(old(hooks), args);
        ok == h.ok && hooks == h.hooks && calls == old(calls) + (if h.call.Some? then [h.call.value] else [])
      ensures old(Valid()) ==> Valid()
    {
      if Valid() {
        HookKeepsRegistrations(hooks, calls, args, "");
      }
      if |args| == 1 {
        return true;
      }
      if |args| != 4 {
        return false;
      }
      var num := HookNamed(args[1]);
      if num.None? {
        return false;
      }
      var f := HookFnNamed(args[3]);
      if f.None? {
        return false;
      }
      var ops := HookOps(PF_INET, num.value, Atoi(args[2]), f.value);
      hooks := [ops] + hooks;
      calls := calls + [Register(ops)];
      return true;
    }

    /** `hook_post_cleanup(command)`: the safe walk that unregisters and
      * frees every hook, head first. */
    method PostCleanup(command: string) returns (ok: bool)
      modifies this
      ensures ok
      ensures hooks == CleanupOf(old(hooks), command).0
      ensures calls == old(calls) + CleanupOf(old(hooks), command).1
      ensures old(Valid()) ==> Valid()
    {
      if command != "gen_ip" {
        assert calls + [] == calls;
        return true;
      }
      ghost var start := calls;
      ghost var all := hooks;
      ghost var done := 0;
      while |hooks| > 0
        invariant done <= |all| && hooks == all[done..]
        invariant calls == start + Unregistrations(all[..done])
        decreases |hooks|
      {
        assert all[..done + 1][..done] == all[..done];
        calls := calls + [Unregister(hooks[0])];
        hooks := hooks[1..];
        done := done + 1;
      }
      assert all[..done] == all;
      if Live(start) == multiset(all) {
        LiveOfUnregistrations(start, all);
      }
      return true;
    }
  }
}
