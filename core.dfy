/**
 * The simulator core: verdict names, the command-line option table built
 * from the registered options, the wrappers through which modules register
 * netfilter hooks and socket options, and the transmit statistics of
 * `nf_send`.
 */
module Core {
  import opened Wrappers
  import opened CInt
  import opened CLib
  import Wire
  import IfConfig

  // ---------------------------------------------------------------------
  // Verdicts
  // ---------------------------------------------------------------------

  const NF_DROP: int := 0
  const NF_ACCEPT: int := 1
  const NF_STOLEN: int := 2
  const NF_QUEUE: int := 3
  const NF_REPEAT: int := 4

  /** `nf_retval_str`, indexed by verdict. */
  const VerdictNames: seq<string> := ["NF_DROP", "NF_ACCEPT", "NF_STOLEN", "NF_QUEUE", "NF_REPEAT"]

  /** `nf_retval`: the name of a verdict, `ERROR (n)` for anything else. */
  function NfRetval(retval: int): string
  {
    if 0 <= retval < |VerdictNames| then VerdictNames[retval]
    else "ERROR (" + IntToDecimal(retval) + ")"
  }

  /** The table position of `name` at or after `from`, -1 when absent. */
  function VerdictIndexFrom(name: string, from: nat): (r: int)
    requires from <= |VerdictNames|
    ensures -1 <= r < |VerdictNames|
    ensures r >= 0 ==> from <= r && VerdictNames[r] == name && forall k :: from <= k < r ==> VerdictNames[k] != name
    ensures r == -1 <==> forall k :: from <= k < |VerdictNames| ==> VerdictNames[k] != name
    decreases |VerdictNames| - from
  {
    if from == |VerdictNames| then -1
    else if VerdictNames[from] == name then from
    else VerdictIndexFrom(name, from + 1)
  }

  /** The verdict called `name`, or -1. */
  function VerdictIndex(name: string): (r: int)
    ensures -1 <= r < |VerdictNames|
    ensures r >= 0 ==> VerdictNames[r] == name
    ensures r == -1 <==> name !in VerdictNames
  {
    VerdictIndexFrom(name, 0)
  }

  /** `nf_retval_by_name`: the loop over the name table. */
  method NfRetvalByName(name: string) returns (r: int)
    ensures r == VerdictIndex(name)
  {
    var i := 0;
    while i < |VerdictNames|
      invariant i <= |VerdictNames| && VerdictIndexFrom(name, i) == VerdictIndex(name)
    {
      if name == VerdictNames[i] {
        return i;
      }
      i := i + 1;
    }
    return -1;
  }

  /** Every verdict's name reads back as that verdict. */
  lemma RetvalRoundTrip(v: int)
    requires NF_DROP <= v <= NF_REPEAT
    ensures VerdictIndex(NfRetval(v)) == v
  {
    assert VerdictNames[v] in VerdictNames;
    assert forall j, k :: 0 <= j < k < |VerdictNames| ==> VerdictNames[j] != VerdictNames[k] by {
      forall j, k | 0 <= j < k < |VerdictNames|
        ensures VerdictNames[j] != VerdictNames[k]
      {
        assert VerdictNames[j][3] != VerdictNames[k][3];
      }
    }
  }

  /** The text for an out-of-range value is no verdict's name. */
  lemma ErrorNamesUnknown(v: int)
    requires !(NF_DROP <= v <= NF_REPEAT)
    ensures NfRetval(v)[..7] == "ERROR ("
    ensures VerdictIndex(NfRetval(v)) == -1
  {
    var t := NfRetval(v);
    assert t[0] == 'E';
    forall k | 0 <= k < |VerdictNames|
      ensures VerdictNames[k] != t
    {
      assert VerdictNames[k][0] == 'N';
    }
  }

  // ---------------------------------------------------------------------
  // Command-line options
  // ---------------------------------------------------------------------

  /** The `struct option` part of a `cmdline_opt(...)` registration: long
    * name, `has_arg`, and short option character (0 for none). */
  datatype Opt = Opt(name: string, hasArg: int, val: int)

  /** Option `x` clashes with an earlier option `y`: the same short
    * character, or the same long name. */
  predicate Clash(copts: seq<Opt>, x: nat, y: nat)
    requires y < x < |copts|
  {
    (copts[x].val != 0 && copts[x].val == copts[y].val) || copts[x].name == copts[y].name
  }

  /** Option `x` has no `has_arg` above 2 and clashes with no earlier
    * option. */
  predicate EntryOk(copts: seq<Opt>, x: nat)
    requires x < |copts|
  {
    copts[x].hasArg <= 2 && forall y :: 0 <= y < x ==> !Clash(copts, x, y)
  }

  predicate AcceptedUpTo(copts: seq<Opt>, n: nat)
    requires n <= |copts|
  {
    forall x :: 0 <= x < n ==> EntryOk(copts, x)
  }

  /** The table is acceptable: no `has_arg` above 2 and no clash. */
  predicate WellFormedOptions(copts: seq<Opt>)
  {
    AcceptedUpTo(copts, |copts|)
  }

  /** The `getopt_long` table: each option with its index as `val`. */
  function Indexed(copts: seq<Opt>): (r: seq<Opt>)
    ensures |r| == |copts|
    ensures forall x :: 0 <= x < |r| ==> r[x] == copts[x].(val := x)
  {
    seq(|copts|, x requires 0 <= x < |copts| => copts[x].(val := x))
  }

  /** `get_cmdline_options`, with each option compared against the short
    * characters of the earlier registrations. */
  function OptionsOf(copts: seq<Opt>): Result<seq<Opt>>
  {
    if WellFormedOptions(copts) then Ok(Indexed(copts)) else Barf
  }

  /** `get_cmdline_options` as written: the earlier entries of the output
    * table already hold their index as `val`, so the short character is
    * compared against an index. */
  function OptionsAsWritten(copts: seq<Opt>): Result<seq<Opt>>
  {
    if forall x :: 0 <= x < |copts| ==>
        copts[x].hasArg <= 2 &&
        forall y :: 0 <= y < x ==> !((copts[x].val != 0 && copts[x].val == y) || copts[x].name == copts[y].name)
    then Ok(Indexed(copts))
    else Barf
  }

  /** Two options sharing the short character `a` are accepted as written,
    * and the second can never be selected by it. */
  lemma DuplicateShortOptionAccepted()
    ensures OptionsAsWritten([Opt("echo", 0, 'a' as int), Opt("abort", 0, 'a' as int)]).Ok?
    ensures OptionsOf([Opt("echo", 0, 'a' as int), Opt("abort", 0, 'a' as int)]) == Barf
    ensures OptionFor([Opt("echo", 0, 'a' as int), Opt("abort", 0, 'a' as int)], 'a' as int) == Some(0)
  {
    var copts := [Opt("echo", 0, 'a' as int), Opt("abort", 0, 'a' as int)];
    assert Clash(copts, 1, 0) && !EntryOk(copts, 1);
  }

  /** The option loop: a fatal outcome on the first bad or clashing entry. */
  method GetCmdlineOptions(copts: seq<Opt>) returns (r: Result<seq<Opt>>)
    ensures r == OptionsOf(copts)
  {
    var opts: seq<Opt> := [];
    var x := 0;
    while x < |copts|
      invariant x <= |copts| && opts == Indexed(copts[..x])
      invariant AcceptedUpTo(copts, x)
    {
      if copts[x].hasArg > 2 {
        assert !EntryOk(copts, x);
        return Barf;
      }
      var y := 0;
      while y < x
        invariant y <= x && forall k :: 0 <= k < y ==> !Clash(copts, x, k)
      {
        if (copts[x].val != 0 && copts[x].val == copts[y].val) || copts[x].name == copts[y].name {
          assert Clash(copts, x, y) && !EntryOk(copts, x);
          return Barf;
        }
        y := y + 1;
      }
      assert EntryOk(copts, x);
      assert Indexed(copts[..x + 1]) == Indexed(copts[..x]) + [copts[x].(val := x)];
      opts := opts + [copts[x].(val := x)];
      x := x + 1;
    }
    assert copts[..x] == copts;
    return Ok(opts);
  }

  /** `get_cmdline_option(opt)`: a value below `'0'` is an index into the
    * table (a long option); otherwise the first option with that short
    * character. */
  function OptionFor(copts: seq<Opt>, opt: int): (r: Option<nat>)
    requires opt < '0' as int ==> 0 <= opt < |copts|
    ensures opt < '0' as int ==> r == Some(opt)
    ensures opt >= '0' as int && r.Some? ==> r.value < |copts| && copts[r.value].val == opt && forall k :: 0 <= k < r.value ==> copts[k].val != opt
    ensures opt >= '0' as int && r.None? ==> forall k :: 0 <= k < |copts| ==> copts[k].val != opt
  {
    if opt < '0' as int then Some(opt) else ShortFrom(copts, opt, 0)
  }

  function ShortFrom(copts: seq<Opt>, opt: int, from: nat): (r: Option<nat>)
    requires from <= |copts|
    ensures r.Some? ==> from <= r.value < |copts| && copts[r.value].val == opt && forall k :: from <= k < r.value ==> copts[k].val != opt
    ensures r.None? ==> forall k :: from <= k < |copts| ==> copts[k].val != opt
    decreases |copts| - from
  {
    if from == |copts| then None
    else if copts[from].val == opt then Some(from)
    else ShortFrom(copts, opt, from + 1)
  }

  /** The short-option search loop of `get_cmdline_option`. */
  method GetCmdlineOption(copts: seq<Opt>, opt: int) returns (r: Option<nat>)
    requires opt < '0' as int ==> 0 <= opt < |copts|
    ensures r == OptionFor(copts, opt)
  {
    if opt < '0' as int {
      return Some(opt);
    }
    var i := 0;
    while i < |copts|
      invariant i <= |copts| && ShortFrom(copts, opt, i) == ShortFrom(copts, opt, 0)
    {
      if copts[i].val == opt {
        return Some(i);
      }
      i := i + 1;
    }
    return None;
  }

  /** In an accepted table every short character leads back to its own
    * option, and the index `getopt_long` returns for a long option (while
    * below `'0'`) leads to that option. */
  lemma OptionLookupFindsOwner(copts: seq<Opt>, x: nat)
    requires OptionsOf(copts).Ok? && x < |copts|
    ensures copts[x].val >= '0' as int ==> OptionFor(copts, copts[x].val) == Some(x)
    ensures x < '0' as int ==> OptionFor(copts, OptionsOf(copts).value[x].val) == Some(x)
  {
    assert EntryOk(copts, x);
    if copts[x].val >= '0' as int {
      var r := OptionFor(copts, copts[x].val);
      assert r.Some?;
      if r.value < x {
        assert Clash(copts, x, r.value);
      }
    }
  }

  /** The piece of the short-option string for one option: the character
    * and one colon per required or optional argument. */
  function Piece(o: Opt): (r: string)
    requires 0 <= o.hasArg <= 2
    ensures |r| == 1 + o.hasArg && r[0] == (o.val % 256) as char
  {
    [(o.val % 256) as char] + (if o.hasArg == 0 then "" else if o.hasArg == 1 then ":" else "::")
  }

  /** After the character come only colons, one per argument kind. */
  lemma PieceColons(o: Opt)
    requires 0 <= o.hasArg <= 2
    ensures forall k :: 1 <= k < |Piece(o)| ==> Piece(o)[k] == ':'
  {
  }

  /** What one option contributes: nothing without a short character. */
  function PieceOf(o: Opt): string
    requires 0 <= o.hasArg <= 2
  {
    if o.val == 0 then "" else Piece(o)
  }

  predicate ArgCountsInRange(copts: seq<Opt>)
  {
    forall x :: 0 <= x < |copts| ==> 0 <= copts[x].hasArg <= 2
  }

  /** `get_cmdline_optstr` over the first `n` options: the pieces of the
    * options with a short character, in table order. */
  function OptStrTo(copts: seq<Opt>, n: nat): (r: string)
    requires ArgCountsInRange(copts) && n <= |copts|
  {
    if n == 0 then "" else OptStrTo(copts, n - 1) + PieceOf(copts[n - 1])
  }

  /** The string fits the `3 * n_opts + 1` bytes allocated for it,
    * terminator included. */
  lemma {:induction false} OptStrFits(copts: seq<Opt>, n: nat)
    requires ArgCountsInRange(copts) && n <= |copts|
    ensures |OptStrTo(copts, n)| + 1 <= 3 * n + 1
  {
    if n > 0 {
      OptStrFits(copts, n - 1);
    }
  }

  /** The short-option string. */
  function OptStr(copts: seq<Opt>): string
    requires ArgCountsInRange(copts)
  {
    OptStrTo(copts, |copts|)
  }

  /** The string-building loop of `get_cmdline_optstr`. */
  method GetCmdlineOptstr(copts: seq<Opt>) returns (optstr: string)
    requires ArgCountsInRange(copts)
    ensures optstr == OptStr(copts)
  {
    optstr := "";
    var x := 0;
    while x < |copts|
      invariant x <= |copts| && optstr == OptStrTo(copts, x)
    {
      assert 0 <= copts[x].hasArg <= 2;
      var piece := PieceOf(copts[x]);
      assert OptStrTo(copts, x + 1) == optstr + piece;
      optstr := optstr + piece;
      x := x + 1;
    }
  }

  // ---------------------------------------------------------------------
  // Hook and socket-option registration wrappers
  // ---------------------------------------------------------------------

  /** Calls made by the hook wrappers, by position in the `reg` array:
    * `__nf_register_hook`, `field_attach_static` with the location,
    * `field_detach_all` and `__nf_unregister_hook`. */
  datatype HookCall = Register(i: nat) | Attach(i: nat) | DetachAll(i: nat) | Unregister(i: nat)

  /** What `__nf_register_hook` returns for position `i`. */
  type Registrar = nat -> int

  /** The outcome of a run that was not fatal: the return value, how many
    * positions were adopted by the owner, and the calls made. */
  datatype HookRun = HookRun(ret: int, adopted: nat, calls: seq<HookCall>)

  /** `__nf_unregister_hook_wrapper(reg, n)`: detach and unregister each of
    * the first `n`, in order. */
  function UnregisterCalls(n: nat): (r: seq<HookCall>)
  {
    if n == 0 then [] else UnregisterCalls(n - 1) + [DetachAll(n - 1), Unregister(n - 1)]
  }

  /** The calls of `n` successful registrations. */
  function RegisterCalls(n: nat): (r: seq<HookCall>)
  {
    if n == 0 then [] else RegisterCalls(n - 1) + [Register(n - 1), Attach(n - 1)]
  }

  /** Position `k` is registered and given its field, in order. */
  lemma {:induction false} RegisterCallsOrder(n: nat)
    ensures |RegisterCalls(n)| == 2 * n
    ensures forall k :: 0 <= k < n ==> RegisterCalls(n)[2 * k] == Register(k) && RegisterCalls(n)[2 * k + 1] == Attach(k)
  {
    if n > 0 {
      RegisterCallsOrder(n - 1);
    }
  }

  /** Position `k` loses its fields, then is unregistered, in order. */
  lemma {:induction false} UnregisterCallsOrder(n: nat)
    ensures |UnregisterCalls(n)| == 2 * n
    ensures forall k :: 0 <= k < n ==> UnregisterCalls(n)[2 * k] == DetachAll(k) && UnregisterCalls(n)[2 * k + 1] == Unregister(k)
  {
    if n > 0 {
      UnregisterCallsOrder(n - 1);
    }
  }

  /** A position whose owner is set to another module is fatal; so is an
    * owned position when `owner` is NULL (None), whose name cannot be
    * read. */
  predicate OwnerClash(owners: seq<Option<string>>, owner: Option<string>, i: nat)
    requires i < |owners|
  {
    owners[i].Some? && owners[i] != owner
  }

  /** `__nf_register_hook_wrapper` from position `i` on, the first `i`
    * registered: all positions are registered in order; the first failure
    * unregisters those before it and returns its error. A run of no hooks
    * returns 0. */
  function RegisterFrom(owners: seq<Option<string>>, owner: Option<string>, reg: Registrar, i: nat): (r: Result<HookRun>)
    requires i <= |owners|
    ensures r.Ok? ==> i <= r.value.adopted <= |owners|
    ensures r.Ok? ==> forall k :: i <= k < r.value.adopted ==> !OwnerClash(owners, owner, k)
    ensures r.Ok? && r.value.ret == 0 ==> r.value.adopted == |owners|
    ensures r.Ok? && r.value.ret != 0 ==> i < r.value.adopted && reg(r.value.adopted - 1) == r.value.ret
    ensures r.Barf? ==> exists k :: i <= k < |owners| && OwnerClash(owners, owner, k)
    decreases |owners| - i
  {
    if i == |owners| then Ok(HookRun(0, i, RegisterCalls(i)))
    else if OwnerClash(owners, owner, i) then Barf
    else if reg(i) != 0 then Ok(HookRun(reg(i), i + 1, RegisterCalls(i) + [Register(i)] + UnregisterCalls(i)))
    else RegisterFrom(owners, owner, reg, i + 1)
  }

  function RegisterHooksOf(owners: seq<Option<string>>, owner: Option<string>, reg: Registrar): Result<HookRun>
  {
    RegisterFrom(owners, owner, reg, 0)
  }

  /** All or nothing: a run that succeeds registers every hook in order,
    * each followed by its field; a run that fails at position `i` made
    * the calls of the `i` successes, the failing registration and then
    * the unregistration of the first `i`, and returns the error of that
    * position after every earlier one returned 0. */
  lemma {:induction false} RegisterAllOrNothing(owners: seq<Option<string>>, owner: Option<string>, reg: Registrar, i: nat)
    requires i <= |owners|
    requires RegisterFrom(owners, owner, reg, i).Ok?
    ensures var h := RegisterFrom(owners, owner, reg, i).value;
      (h.ret == 0 ==> h.adopted == |owners| && h.calls == RegisterCalls(|owners|)) &&
      (h.ret != 0 ==>
        h.adopted >= 1 && reg(h.adopted - 1) == h.ret &&
        h.calls == RegisterCalls(h.adopted - 1) + [Register(h.adopted - 1)] + UnregisterCalls(h.adopted - 1))
    ensures var h := RegisterFrom(owners, owner, reg, i).value;
      forall k :: i <= k < h.adopted ==> !OwnerClash(owners, owner, k) && (k < h.adopted - 1 ==> reg(k) == 0)
    decreases |owners| - i
  {
    if i < |owners| && reg(i) == 0 {
      RegisterAllOrNothing(owners, owner, reg, i + 1);
    }
  }

  /** `__nf_register_hook_wrapper(reg, n, owner, location)` over the
    * owners of the `n` hook structures; each position visited is adopted
    * by `owner`. */
  method RegisterHookWrapper(owners: array<Option<string>>, owner: Option<string>, reg: Registrar) returns (r: Result<HookRun>)
    modifies owners
    ensures r == RegisterHooksOf(old(owners[..]), owner, reg)
    ensures r.Ok? ==> forall k :: 0 <= k < owners.Length ==> owners[k] == if k < r.value.adopted then owner else old(owners[k])
  {
    ghost var before := owners[..];
    var calls: seq<HookCall> := [];
    var i := 0;
    while i < owners.Length
      invariant i <= owners.Length && calls == RegisterCalls(i)
      invariant RegisterFrom(before, owner, reg, i) == RegisterHooksOf(before, owner, reg)
      invariant forall k :: 0 <= k < owners.Length ==> owners[k] == if k < i then owner else before[k]
    {
      assert owners[i] == before[i];
      if owners[i].Some? && owners[i] != owner {
        assert OwnerClash(before, owner, i);
        return Barf;
      }
      owners[i] := owner;
      var ret := reg(i);
      if ret != 0 {
        calls := calls + [Register(i)] + UnregisterCalls(i);
        assert RegisterFrom(before, owner, reg, i) == Ok(HookRun(ret, i + 1, calls));
        return Ok(HookRun(ret, i + 1, calls));
      }
      assert RegisterFrom(before, owner, reg, i) == RegisterFrom(before, owner, reg, i + 1);
      calls := calls + [Register(i), Attach(i)];
      i := i + 1;
    }
    return Ok(HookRun(0, i, calls));
  }

  /** The owner test as written: `reg->owner` is the first structure's
    * owner, which the first iteration sets, so from position 1 on every
    * structure's owner is dereferenced, and a null one crashes; a NULL
    * `owner` skips the test from position 1 on. */
  function OwnerFailsAsWritten(owners: seq<Option<string>>, owner: Option<string>, i: nat): bool
    requires i < |owners|
  {
    if i == 0 then OwnerClash(owners, owner, 0)
    else owner.Some? && (owners[i].None? || owners[i] != owner)
  }

  /** Two structures left without an owner: the corrected test adopts
    * both, the test as written crashes on the second. */
  lemma UnownedSecondHookCrashes(owner: string)
    ensures OwnerFailsAsWritten([None, None], Some(owner), 1)
    ensures !OwnerClash([None, None], Some(owner), 0) && !OwnerClash([None, None], Some(owner), 1)
  {
  }

  /** A `struct nf_sockopt_ops` as the wrappers see it: its owner, whether
    * it is on the kernel's sockopt list, and whether it carries the
    * location field. */
  datatype SockoptOps = SockoptOps(owner: Option<string>, listed: bool, attached: bool)

  /** `__nf_register_sockopt_wrapper`: an owner clash is fatal; otherwise
    * the structure is adopted by `owner`, an injected failure (`fail`)
    * returns -EINTR before anything is registered, and `register` is what
    * `__nf_register_sockopt` returns, which lists the structure when it is
    * 0; the location field is attached only then. */
  function SockoptWrapperOf(reg: SockoptOps, owner: Option<string>, fail: bool, register: int): Result<(int, SockoptOps)>
  {
    if reg.owner.Some? && reg.owner != owner then Barf
    else
      var adopted := reg.(owner := owner);
      if fail then Ok((-Wire.EINTR, adopted))
      else if register != 0 then Ok((register, adopted))
      else Ok((0, adopted.(listed := true, attached := true)))
  }

  /** `__nf_unregister_sockopt_wrapper`: the fields are detached and the
    * structure taken off the list. */
  function SockoptUnwrap(reg: SockoptOps): (r: SockoptOps)
    ensures !r.listed && !r.attached && r.owner == reg.owner
  {
    reg.(listed := false, attached := false)
  }

  /** Only a result of 0 leaves the structure listed with its field; any
    * other result, the injected -EINTR included, leaves the list and the
    * fields as they were. Every result that is not fatal leaves `owner`
    * owning the structure, and the call is fatal exactly on a clash. */
  lemma SockoptRegistration(reg: SockoptOps, owner: Option<string>, fail: bool, register: int)
    ensures SockoptWrapperOf(reg, owner, fail, register).Barf? <==> reg.owner.Some? && reg.owner != owner
    ensures var r := SockoptWrapperOf(reg, owner, fail, register);
      r.Ok? ==> r.value.1.owner == owner && (r.value.0 == 0 <==> !fail && register == 0)
    ensures var r := SockoptWrapperOf(reg, owner, fail, register);
      r.Ok? && r.value.0 == 0 ==> r.value.1.listed && r.value.1.attached
    ensures var r := SockoptWrapperOf(reg, owner, fail, register);
      r.Ok? && r.value.0 != 0 ==> r.value.1.listed == reg.listed && r.value.1.attached == reg.attached
    ensures var r := SockoptWrapperOf(reg, owner, fail, register);
      r.Ok? && fail ==> r.value.0 == -Wire.EINTR
  {
  }

  /** Unregistering a structure that registered successfully puts the list
    * and the fields back as they were before it was registered, keeping
    * its new owner. */
  lemma SockoptRoundTrip(reg: SockoptOps, owner: Option<string>, register: int)
    requires !reg.listed && !reg.attached
    requires var r := SockoptWrapperOf(reg, owner, false, register); r.Ok? && r.value.0 == 0
    ensures SockoptUnwrap(SockoptWrapperOf(reg, owner, false, register).value.1) == reg.(owner := owner)
  {
  }

  // ---------------------------------------------------------------------
  // Transmission
  // ---------------------------------------------------------------------

  /** A device after `nf_send` of a packet of `len` bytes: one more packet
    * and `len` more bytes sent, in `unsigned long`. */
  function Sent(dev: IfConfig.Device, len: nat): (r: IfConfig.Device)
    ensures r.name == dev.name && r.ifindex == dev.ifindex && r.ifa == dev.ifa
    ensures r.stats.rxpackets == dev.stats.rxpackets && r.stats.rxbytes == dev.stats.rxbytes
  {
    dev.(stats := dev.stats.(txpackets := Wrap(dev.stats.txpackets + 1, U64),
                             txbytes := Wrap(dev.stats.txbytes + len, U64)))
  }

  function Total(lens: seq<nat>): nat
  {
    if |lens| == 0 then 0 else Total(lens[..|lens| - 1]) + lens[|lens| - 1]
  }

  function SentAll(dev: IfConfig.Device, lens: seq<nat>): IfConfig.Device
  {
    if |lens| == 0 then dev else Sent(SentAll(dev, lens[..|lens| - 1]), lens[|lens| - 1])
  }

  lemma WrapAdd(a: int, b: int)
    ensures Wrap(Wrap(a, U64) + b, U64) == Wrap(a + b, U64)
  {
  }

  /** Successive sends add up: the counters of a sequence of packets are
    * the starting counters plus the packet count and the byte total,
    * modulo 2^64. */
  lemma {:induction false} SendsAccumulate(dev: IfConfig.Device, lens: seq<nat>)
    requires dev.stats.txpackets < U64 && dev.stats.txbytes < U64
    ensures SentAll(dev, lens).stats.txpackets == Wrap(dev.stats.txpackets + |lens|, U64)
    ensures SentAll(dev, lens).stats.txbytes == Wrap(dev.stats.txbytes + Total(lens), U64)
    ensures SentAll(dev, lens).stats.rxpackets == dev.stats.rxpackets
  {
    if |lens| > 0 {
      var init := lens[..|lens| - 1];
      SendsAccumulate(dev, init);
      WrapAdd(dev.stats.txpackets + |init|, 1);
      WrapAdd(dev.stats.txbytes + Total(init), lens[|lens| - 1]);
    }
  }

  /** `nf_send(skb)` on the device at position `d`. */
  method NfSend(ifs: IfConfig.Interfaces, d: nat, len: nat)
    requires d < |ifs.devices|
    modifies ifs
    ensures ifs.devices == old(ifs.devices)[d := Sent(old(ifs.devices[d]), len)]
    ensures ifs.counter == old(ifs.counter)
  {
    var dev := ifs.devices[d];
    var stats := dev.stats.(txpackets := Wrap(dev.stats.txpackets + 1, U64),
                            txbytes := Wrap(dev.stats.txbytes + len, U64));
    ifs.devices := ifs.devices[d := dev.(stats := stats)];
  }
}
