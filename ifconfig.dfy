/**
 * The simulated network interfaces and the `ifconfig` command: the list
 * `interfaces`, the index counter that numbers the devices, the address
 * rules of `set_device`, `create_device`, `interface_by_name` and the
 * up/down/reconfigure dispatch.
 */
module IfConfig {
  import opened Wrappers
  import opened CLib
  import opened NetMask

  const IFNAMSIZ: nat := 16

  /** The one address record of a device. A fresh record comes from
    * `talloc`, which does not clear it: None is a field never set. */
  datatype IfAddr = IfAddr(local: Option<bv32>, address: Option<bv32>, mask: Option<bv32>, broadcast: Option<bv32>)

  const Unset := IfAddr(None, None, None, None)

  /** The traffic counters of a device, cleared when it is created. */
  datatype Stats = Stats(rxpackets: nat, rxbytes: nat, txpackets: nat, txbytes: nat)

  datatype Device = Device(name: string, ifindex: int, ifa: IfAddr, stats: Stats)

  /** What `set_device` did: its result and the record as it left it, or
    * the read of an argument past the last one. */
  datatype Setting = Setting(ok: bool, ifa: IfAddr) | ReadsPastEnd

  /** The broadcast address at `at`, when there is an argument there. */
  function BroadcastPart(ifa: IfAddr, args: seq<string>, at: nat, aton: Aton): (r: Setting)
    ensures r.Setting?
    ensures at >= |args| ==> r == Setting(true, ifa)
    ensures at < |args| ==> (r.ok <==> aton(args[at]).Some?)
    ensures at < |args| && r.ok ==> r.ifa == ifa.(broadcast := aton(args[at]))
    ensures at < |args| && !r.ok ==> r.ifa == ifa
  {
    if at >= |args| then Setting(true, ifa)
    else match aton(args[at])
      case None => Setting(false, ifa)
      case Some(c) => Setting(true, ifa.(broadcast := Some(c)))
  }

  /** `set_device(dev, argc, argv)` with its arguments counted as the
    * `mask NETMASK` form needs: the address, then either `mask` and a
    * dotted netmask or a number of mask bits from 8 to 31, then the
    * broadcast address; each optional from the second on. A failure leaves
    * what was set before it. */
  function Configured(ifa: IfAddr, args: seq<string>, aton: Aton): (r: Setting)
    requires |args| >= 1
    ensures r.Setting?
  {
    match aton(args[0])
    case None => Setting(false, ifa)
    case Some(a) =>
      var ifa1 := ifa.(local := Some(a), address := Some(a));
      if |args| == 1 then Setting(true, ifa1)
      else if args[1] == "mask" && |args| > 2 then
        match aton(args[2])
        case None => Setting(false, ifa1)
        case Some(m) => BroadcastPart(ifa1.(mask := Some(m)), args, 3, aton)
      else
        var bits := Atoi(args[1]);
        if bits < 8 || bits > 31 then Setting(false, ifa1)
        else BroadcastPart(ifa1.(mask := Some(PrefixMask(bits as bv32))), args, 2, aton)
  }

  /** `set_device` as written: after `mask NETMASK` it has counted one
    * argument for the two, so with nothing after the netmask it goes on to
    * read a broadcast address one past the last argument. */
  function SetDeviceAsWritten(ifa: IfAddr, args: seq<string>, aton: Aton): (r: Setting)
    requires |args| >= 1
  {
    match aton(args[0])
    case None => Setting(false, ifa)
    case Some(a) =>
      var ifa1 := ifa.(local := Some(a), address := Some(a));
      if |args| == 1 then Setting(true, ifa1)
      else if args[1] == "mask" && |args| > 2 then
        match aton(args[2])
        case None => Setting(false, ifa1)
        case Some(m) => if |args| > 3 then BroadcastPart(ifa1.(mask := Some(m)), args, 3, aton) else ReadsPastEnd
      else
        var bits := Atoi(args[1]);
        if bits < 8 || bits > 31 then Setting(false, ifa1)
        else BroadcastPart(ifa1.(mask := Some(PrefixMask(bits as bv32))), args, 2, aton)
  }

  /** The two readings part exactly on `ADDR mask NETMASK` with both
    * addresses valid and nothing after them. */
  lemma AsWrittenDiffers(ifa: IfAddr, args: seq<string>, aton: Aton)
    requires |args| >= 1
    ensures SetDeviceAsWritten(ifa, args, aton) != Configured(ifa, args, aton)
      <==> |args| == 3 && args[1] == "mask" && aton(args[0]).Some? && aton(args[2]).Some?
    ensures SetDeviceAsWritten(ifa, args, aton) != Configured(ifa, args, aton)
      ==> SetDeviceAsWritten(ifa, args, aton) == ReadsPastEnd
  {
  }

  /** `ifconfig eth0 10.0.0.1 mask 255.0.0.0`: read past the end as
    * written, a netmask set and success when counted right. */
  lemma MaskWithoutBroadcast(ifa: IfAddr, a: string, m: string, aton: Aton)
    requires aton(a).Some? && aton(m).Some?
    ensures SetDeviceAsWritten(ifa, [a, "mask", m], aton) == ReadsPastEnd
    ensures Configured(ifa, [a, "mask", m], aton)
      == Setting(true, ifa.(local := aton(a), address := aton(a), mask := aton(m)))
  {
    assert [a, "mask", m][1] == "mask";
  }

  /** A valid address sets `ifa_local` and `ifa_address` alike, whatever
    * follows; an invalid one fails with nothing changed. */
  lemma AddressSetsBoth(ifa: IfAddr, args: seq<string>, aton: Aton)
    requires |args| >= 1
    ensures var r := Configured(ifa, args, aton);
      (aton(args[0]).None? ==> r == Setting(false, ifa))
      && (aton(args[0]).Some? ==> r.ifa.local == r.ifa.address == aton(args[0]))
      && (|args| == 1 ==> r.ok == aton(args[0]).Some?)
  {
  }

  /** The mask-bits form: a number from 8 to 31 sets the netmask of that
    * many bits, anything else fails with only the address set. */
  lemma MaskBitsForm(ifa: IfAddr, args: seq<string>, aton: Aton)
    requires |args| >= 2 && aton(args[0]).Some? && !(args[1] == "mask" && |args| > 2)
    ensures var r := Configured(ifa, args, aton);
      var bits := Atoi(args[1]);
      (bits < 8 || bits > 31 ==> r == Setting(false, ifa.(local := aton(args[0]), address := aton(args[0]))))
      && (8 <= bits <= 31 ==>
            r.ifa.mask == Some(PrefixMask(bits as bv32)) && LeadingOnes(r.ifa.mask.value, 0) == bits as bv32)
  {
    var bits := Atoi(args[1]);
    if 8 <= bits <= 31 {
      LeadingOnesOfPrefix(bits as bv32, 0);
    }
  }

  /** The dotted form: `mask` and a valid netmask store that netmask as
    * given, a contiguous one or not. */
  lemma DottedMaskForm(ifa: IfAddr, args: seq<string>, aton: Aton)
    requires |args| > 2 && args[1] == "mask" && aton(args[0]).Some?
    ensures var r := Configured(ifa, args, aton);
      (aton(args[2]).None? ==> !r.ok && r.ifa.mask == ifa.mask)
      && (aton(args[2]).Some? ==> r.ifa.mask == aton(args[2]) && (|args| == 3 ==> r.ok))
  {
  }

  /** `set_device` stepping `argc` and `argv` as the C code does, with the
    * `mask NETMASK` form counting both of its arguments. */
  method SetDevice(ifa: IfAddr, args: seq<string>, aton: Aton) returns (ok: bool, ifa': IfAddr)
    requires |args| >= 1
    ensures Setting(ok, ifa') == Configured(ifa, args, aton)
  {
    var argc := |args|;
    var p := 0;
    ifa' := ifa;
    var local := aton(args[p]);
    if local.None? {
      return false, ifa';
    }
    ifa' := ifa'.(local := local, address := local);
    argc := argc - 1;
    if argc == 0 {
      return true, ifa';
    }
    p := p + 1;
    if args[p] == "mask" && argc > 1 {
      var mask := aton(args[p + 1]);
      if mask.None? {
        return false, ifa';
      }
      ifa' := ifa'.(mask := mask);
      p := p + 1;
      argc := argc - 1;
    } else {
      var bits := Atoi(args[p]);
      if bits < 8 || bits > 31 {
        return false, ifa';
      }
      ifa' := ifa'.(mask := Some(PrefixMask(bits as bv32)));
    }
    argc := argc - 1;
    if argc == 0 {
      return true, ifa';
    }
    p := p + 1;
    var broadcast := aton(args[p]);
    if broadcast.None? {
      return false, ifa';
    }
    ifa' := ifa'.(broadcast := broadcast);
    ok := true;
  }

  /** `strncpy(dev->name, name, IFNAMSIZ)`: the first 16 characters. */
  function DeviceName(name: string): (r: string)
    ensures |r| <= IFNAMSIZ && |r| <= |name| && r == name[..|r|]
    ensures |name| <= IFNAMSIZ ==> r == name
  {
    name[..Min(IFNAMSIZ, |name|)]
  }

  /** `interface_by_name`: the first device whose name agrees with `name`
    * in its first 16 characters. */
  function FirstNamed(devices: seq<Device>, name: string, from: nat): (r: Option<nat>)
    requires from <= |devices|
    ensures r.Some? ==> from <= r.value < |devices| && StrnEq(devices[r.value].name, name, IFNAMSIZ)
    ensures r.Some? ==> forall k :: from <= k < r.value ==> !StrnEq(devices[k].name, name, IFNAMSIZ)
    ensures r.None? ==> forall k :: from <= k < |devices| ==> !StrnEq(devices[k].name, name, IFNAMSIZ)
    decreases |devices| - from
  {
    if from == |devices| then None
    else if StrnEq(devices[from].name, name, IFNAMSIZ) then Some(from)
    else FirstNamed(devices, name, from + 1)
  }

  /** The list walk of `interface_by_name`. */
  method InterfaceByName(devices: seq<Device>, name: string) returns (r: Option<nat>)
    ensures r == FirstNamed(devices, name, 0)
  {
    var i := 0;
    while i < |devices|
      invariant i <= |devices|
      invariant FirstNamed(devices, name, 0) == FirstNamed(devices, name, i)
    {
      if StrnEq(devices[i].name, name, IFNAMSIZ) {
        return Some(i);
      }
      i := i + 1;
    }
    return None;
  }

  /** The interface list and the counter that numbers new devices. */
  datatype Net = Net(devices: seq<Device>, counter: int)

  /** Devices are listed in the order they were numbered, each below the
    * counter, which starts at 1. */
  ghost predicate Numbered(n: Net)
  {
    n.counter >= 1
    && (forall i :: 0 <= i < |n.devices| ==> 1 <= n.devices[i].ifindex < n.counter)
    && (forall i, j :: 0 <= i < j < |n.devices| ==> n.devices[i].ifindex < n.devices[j].ifindex)
  }

  /** What `create_device` returns and leaves. */
  datatype Creation = Creation(dev: Option<Device>, net: Net)

  /** `create_device(name, argc, argv)`: the next index taken in any case,
    * the new device listed at the tail only when `set_device` succeeds. */
  function Create(n: Net, name: string, args: seq<string>, aton: Aton): (r: Creation)
    requires |args| >= 1
    ensures r.net.counter == n.counter + 1
    ensures r.dev.Some? <==> Configured(Unset, args, aton).ok
    ensures r.dev.Some? ==> r.net.devices == n.devices + [r.dev.value] && r.dev.value.ifindex == n.counter
    ensures r.dev.Some? ==> r.dev.value.name == DeviceName(name) && r.dev.value.ifa == Configured(Unset, args, aton).ifa
    ensures r.dev.Some? ==> r.dev.value.stats == Stats(0, 0, 0, 0)
    ensures r.dev.None? ==> r.net.devices == n.devices
  {
    var s := Configured(Unset, args, aton);
    var net := n.(counter := n.counter + 1);
    if s.ok then
      var dev := Device(DeviceName(name), n.counter, s.ifa, Stats(0, 0, 0, 0));
      Creation(Some(dev), net.(devices := n.devices + [dev]))
    else Creation(None, net)
  }

  /** Creating a device keeps the numbering. */
  lemma CreateKeepsNumbered(n: Net, name: string, args: seq<string>, aton: Aton)
    requires |args| >= 1 && Numbered(n)
    ensures Numbered(Create(n, name, args, aton).net)
  {
  }

  /** The device at `i` unlinked, the others in order. */
  function Unlinked(devices: seq<Device>, i: nat): (r: seq<Device>)
    requires i < |devices|
    ensures |r| == |devices| - 1
    ensures forall k :: 0 <= k < i ==> r[k] == devices[k]
    ensures forall k :: i <= k < |r| ==> r[k] == devices[k + 1]
  {
    devices[..i] + devices[i + 1..]
  }

  datatype Outcome = Outcome(ok: bool, net: Net)

  /** `ifconfig(argc, argv)`, `argv[0]` being the command name: a listing
    * with no device name; `up` as the last argument creates a device not
    * yet listed from four arguments or more; otherwise the device must
    * exist and is shown, taken `down`, or reconfigured in place. */
  function IfconfigOf(n: Net, args: seq<string>, aton: Aton): (r: Outcome)
    requires |args| >= 1
  {
    if |args| == 1 then Outcome(true, n)
    else
      var dev := FirstNamed(n.devices, args[1], 0);
      if StrnEq(args[|args| - 1], "up", 2) then
        if dev.Some? || |args| < 4 then Outcome(false, n)
        else Outcome(true, Create(n, args[1], args[2..], aton).net)
      else if dev.None? then Outcome(false, n)
      else if |args| == 2 then Outcome(true, n)
      else if |args| == 3 && StrnEq(args[2], "down", 4) then Outcome(true, n.(devices := Unlinked(n.devices, dev.value)))
      else
        var d := n.devices[dev.value];
        var s := Configured(d.ifa, args[2..], aton);
        Outcome(s.ok, n.(devices := n.devices[dev.value := d.(ifa := s.ifa)]))
  }

  /** The rules of the dispatch: `up` refuses a listed name and fewer than
    * four arguments; everything else refuses an unknown device; `down`
    * unlinks the device; a reconfiguration touches that device's address
    * record only; and the numbering is kept throughout. */
  lemma IfconfigRules(n: Net, args: seq<string>, aton: Aton)
    requires |args| >= 2 && Numbered(n)
    ensures var r := IfconfigOf(n, args, aton);
      var dev := FirstNamed(n.devices, args[1], 0);
      Numbered(r.net)
      && (StrnEq(args[|args| - 1], "up", 2) && (dev.Some? || |args| < 4) ==> r == Outcome(false, n))
      && (StrnEq(args[|args| - 1], "up", 2) && dev.None? && |args| >= 4 ==>
            r.ok && r.net == Create(n, args[1], args[2..], aton).net)
      && (!StrnEq(args[|args| - 1], "up", 2) && dev.None? ==> r == Outcome(false, n))
      && (!StrnEq(args[|args| - 1], "up", 2) && dev.Some? && |args| == 3 && StrnEq(args[2], "down", 4) ==>
            r.ok && r.net.devices == Unlinked(n.devices, dev.value) && r.net.counter == n.counter)
      && (!StrnEq(args[|args| - 1], "up", 2) && dev.Some? && |args| > 3 ==>
            r.net.counter == n.counter && |r.net.devices| == |n.devices|
            && (forall k :: 0 <= k < |n.devices| && k != dev.value ==> r.net.devices[k] == n.devices[k])
            && r.net.devices[dev.value] == n.devices[dev.value].(ifa := r.net.devices[dev.value].ifa))
  {
    var dev := FirstNamed(n.devices, args[1], 0);
    if StrnEq(args[|args| - 1], "up", 2) && dev.None? && |args| >= 4 {
      CreateKeepsNumbered(n, args[1], args[2..], aton);
    }
  }

  /** The interfaces as the C globals hold them. */
  class Interfaces {
    var devices: seq<Device>
    var counter: int

    ghost function State(): Net
      reads this
    {
      Net(devices, counter)
    }

    /** `LIST_HEAD(interfaces)` and `ifindex_counter = 1`. */
    constructor ()
      ensures devices == [] && counter == 1 && Numbered(State())
    {
      devices := [];
      counter := 1;
    }

    /** `create_device(name, argc, argv)`. */
    method CreateDevice(name: string, args: seq<string>, aton: Aton) returns (dev: Option<Device>)
      requires |args| >= 1
      modifies this
      ensures Creation(dev, State()) == Create(old(State()), name, args, aton)
    {
      var ifindex := counter;
      counter := counter + 1;
      var ok, ifa := SetDevice(Unset, args, aton);
      if !ok {
        return None;
      }
      var d := Device(DeviceName(name), ifindex, ifa, Stats(0, 0, 0, 0));
      devices := devices + [d];
      dev := Some(d);
    }

    /** `ifconfig(argc, argv)`. */
    method Ifconfig(args: seq<string>, aton: Aton) returns (ok: bool)
      requires |args| >= 1
      modifies this
      ensures Outcome(ok, State()) == IfconfigOf(old(State()), args, aton)
    {
      if |args| == 1 {
        return true;
      }
      var dev := InterfaceByName(devices, args[1]);
      if StrnEq(args[|args| - 1], "up", 2) {
        if dev.Some? || |args| < 4 {
          return false;
        }
        var created := CreateDevice(args[1], args[2..], aton);
        return true;
      }
      if dev.None? {
        return false;
      }
      if |args| == 2 {
        return true;
      }
      if |args| == 3 && StrnEq(args[2], "down", 4) {
        devices := Unlinked(devices, dev.value);
        return true;
      }
      var d := devices[dev.value];
      var ifa;
      ok, ifa := SetDevice(d.ifa, args[2..], aton);
      devices := devices[dev.value := d.(ifa := ifa)];
    }
  }
}
