/**
 * The IPv4 routing table and the `route` command: reading a destination
 * in either of its two forms, the table walk of `find_matching_route`,
 * and `route add` / `route del`.
 */
module Route {
  import opened Wrappers
  import opened CLib
  import opened NetMask
  import opened IfConfig

  /** A route: its network, its netmask and the `ifindex` of the device it
    * goes through. */
  datatype RouteEntry = RouteEntry(network: bv32, netmask: bv32, iface: int)

  /** What `get_route_dest` gives: a network and netmask, or its non-zero
    * return value (-1 for a bad address or mask, 1 for a shape it does
    * not know). */
  datatype Dest = Dest(network: bv32, netmask: bv32) | NoDest(code: int)

  /** What the arguments say before any masking: an address and a prefix
    * length, or the non-zero return value. */
  datatype Reading = Read(network: bv32, bits: bv32) | NotRead(code: int)

  /** The reading half of `get_route_dest(route, argc, argv)`:
    * `a.b.c.d/bits` with 0 to 32 bits, or `a.b.c.d mask w.x.y.z` whose
    * netmask counts for its leading ones; -1 for a missing `/`, an address
    * that does not parse or bits out of range, 1 for any other shape. */
  function ReadDest(args: seq<string>, aton: Aton): (r: Reading)
    ensures r.Read? ==> r.bits <= 32
    ensures r.NotRead? ==> r.code == -1 || r.code == 1
  {
    if |args| == 1 then
      match StrChr(args[0], '/', 0)
      case None => NotRead(-1)
      case Some(k) =>
        match aton(args[0][..k])
        case None => NotRead(-1)
        case Some(net) =>
          var bits := Atoi(args[0][k + 1..]);
          if bits < 0 || bits > 32 then NotRead(-1) else Read(net, bits as bv32)
    else if |args| == 3 && args[1] == "mask" then
      match aton(args[0])
      case None => NotRead(-1)
      case Some(net) =>
        match aton(args[2])
        case None => NotRead(-1)
        case Some(maskaddr) => Read(net, LeadingOnes(maskaddr, 0))
    else NotRead(1)
  }

  /** `get_route_dest`: the network of what was read, masked with the
    * netmask of its prefix length. */
  function RouteDest(args: seq<string>, aton: Aton): (r: Dest)
    ensures r.Dest? ==> r.network & !r.netmask == 0 && Contiguous(r.netmask)
    ensures r.Dest? <==> ReadDest(args, aton).Read?
    ensures r.NoDest? ==> r.code == ReadDest(args, aton).code
  {
    match ReadDest(args, aton)
    case NotRead(code) => NoDest(code)
    case Read(network, bits) =>
      MaskedHasNoHostBits(network, PrefixMask(bits));
      Dest(network & PrefixMask(bits), PrefixMask(bits))
  }

  /** The prefix form reads the address before the `/` and the bits after
    * it: no `/`, a bad address or bits outside 0..32 give -1. */
  lemma PrefixForm(arg: string, aton: Aton)
    ensures var r := ReadDest([arg], aton);
      (StrChr(arg, '/', 0).None? ==> r == NotRead(-1))
      && (StrChr(arg, '/', 0).Some? ==>
            var k := StrChr(arg, '/', 0).value;
            var bits := Atoi(arg[k + 1..]);
            (r.Read? <==> aton(arg[..k]).Some? && 0 <= bits <= 32)
            && (r.Read? ==> r.network == aton(arg[..k]).value && r.bits as int == bits)
            && (!r.Read? ==> r == NotRead(-1)))
  {
  }

  /** The mask form counts the leading ones of the netmask. Together with
    * `LeadingMaskWithin` and `LeadingMaskExact`: the netmask is kept whole
    * when it is contiguous and cut at its first gap otherwise. */
  lemma MaskForm(net: string, mask: string, aton: Aton)
    ensures var r := ReadDest([net, "mask", mask], aton);
      (r.Read? <==> aton(net).Some? && aton(mask).Some?)
      && (r.Read? ==> r == Read(aton(net).value, LeadingOnes(aton(mask).value, 0)))
      && (!r.Read? ==> r == NotRead(-1))
  {
    assert [net, "mask", mask][1] == "mask";
  }

  /** Any other number of arguments, or three without `mask` in the
    * middle, is a shape `get_route_dest` does not know. */
  lemma OtherShapes(args: seq<string>, aton: Aton)
    requires |args| != 1 && !(|args| == 3 && args[1] == "mask")
    ensures ReadDest(args, aton) == NotRead(1)
  {
  }

  /** The loop `while ((ntohl(maskaddr) << maskbits) & 0x80000000 &&
    * maxbits--) maskbits++;`. Its last test shifts by 32, which C leaves
    * undefined; the loop ends with 32 there whatever that test gives,
    * because `maxbits` is spent. */
  method CountMaskBits(maskaddr: bv32) returns (maskbits: bv32)
    ensures maskbits == LeadingOnes(maskaddr, 0)
  {
    var maxbits: int := 32;
    maskbits := 0;
    while true
      invariant maskbits <= 32 && maxbits == 32 - maskbits as int
      invariant LeadingOnes(maskaddr, 0) == LeadingOnes(maskaddr, maskbits)
      decreases maxbits
    {
      if maskbits == 32 || (maskaddr << maskbits) & 0x8000_0000 == 0 {
        break;
      }
      var was := maxbits;
      maxbits := maxbits - 1;
      if was == 0 {
        break;
      }
      maskbits := maskbits + 1;
    }
  }

  /** `get_route_dest` step by step. */
  method GetRouteDest(args: seq<string>, aton: Aton) returns (r: Dest)
    ensures r == RouteDest(args, aton)
  {
    if |args| == 1 {
      var slash := StrChr(args[0], '/', 0);
      if slash.None? {
        return NoDest(-1);
      }
      var network := aton(args[0][..slash.value]);
      if network.None? {
        return NoDest(-1);
      }
      var maskbits := Atoi(args[0][slash.value + 1..]);
      if maskbits < 0 || maskbits > 32 {
        return NoDest(-1);
      }
      var netmask := PrefixMask(maskbits as bv32);
      return Dest(network.value & netmask, netmask);
    }
    if |args| == 3 && args[1] == "mask" {
      var network := aton(args[0]);
      if network.None? {
        return NoDest(-1);
      }
      var maskaddr := aton(args[2]);
      if maskaddr.None? {
        return NoDest(-1);
      }
      var maskbits := CountMaskBits(maskaddr.value);
      var netmask := PrefixMask(maskbits);
      return Dest(network.value & netmask, netmask);
    }
    return NoDest(1);
  }

  /** `find_matching_route`: the first route with the same network and
    * netmask. */
  function FirstMatch(routes: seq<RouteEntry>, network: bv32, netmask: bv32, from: nat): (r: Option<nat>)
    requires from <= |routes|
    ensures r.Some? ==>
      from <= r.value < |routes| && routes[r.value].network == network && routes[r.value].netmask == netmask
    ensures r.Some? ==> forall k :: from <= k < r.value ==> !(routes[k].network == network && routes[k].netmask == netmask)
    ensures r.None? ==> forall k :: from <= k < |routes| ==> !(routes[k].network == network && routes[k].netmask == netmask)
    decreases |routes| - from
  {
    if from == |routes| then None
    else if routes[from].network == network && routes[from].netmask == netmask then Some(from)
    else FirstMatch(routes, network, netmask, from + 1)
  }

  /** The list walk of `find_matching_route`. */
  method FindMatchingRoute(routes: seq<RouteEntry>, network: bv32, netmask: bv32) returns (r: Option<nat>)
    ensures r == FirstMatch(routes, network, netmask, 0)
  {
    var i := 0;
    while i < |routes|
      invariant i <= |routes|
      invariant FirstMatch(routes, network, netmask, 0) == FirstMatch(routes, network, netmask, i)
    {
      if routes[i].network == network && routes[i].netmask == netmask {
        return Some(i);
      }
      i := i + 1;
    }
    return None;
  }

  /** Every route is a masked network under a contiguous netmask, and no
    * two routes share a network and netmask. */
  ghost predicate Table(routes: seq<RouteEntry>)
  {
    (forall i :: 0 <= i < |routes| ==> routes[i].network & !routes[i].netmask == 0 && Contiguous(routes[i].netmask))
    && (forall i, j :: 0 <= i < j < |routes| ==>
          !(routes[i].network == routes[j].network && routes[i].netmask == routes[j].netmask))
  }

  /** The route at `i` taken out, the others in order. */
  function Without(routes: seq<RouteEntry>, i: nat): (r: seq<RouteEntry>)
    requires i < |routes|
    ensures |r| == |routes| - 1
    ensures forall k :: 0 <= k < i ==> r[k] == routes[k]
    ensures forall k :: i <= k < |r| ==> r[k] == routes[k + 1]
  {
    routes[..i] + routes[i + 1..]
  }

  datatype Routed = Routed(ok: bool, routes: seq<RouteEntry>)

  /** `route(argc, argv)`, `argv[0]` being the command name: a listing;
    * `add DEST IFACE` with one or three words of destination, refused for
    * a destination already routed or an unknown device and otherwise put at
    * the head; `del DEST`, which takes out the first route with that
    * network and netmask, if any, and succeeds either way. */
  function RouteOf(routes: seq<RouteEntry>, devices: seq<Device>, args: seq<string>, aton: Aton): (r: Routed)
    requires |args| >= 1
  {
    if |args| == 1 || (|args| == 2 && args[1] == "print") then Routed(true, routes)
    else if args[1] == "add" then
      if |args| != 4 && |args| != 6 then Routed(false, routes)
      else
        match RouteDest(args[2..|args| - 1], aton)
        case NoDest(_) => Routed(false, routes)
        case Dest(network, netmask) =>
          if FirstMatch(routes, network, netmask, 0).Some? then Routed(false, routes)
          else
            match FirstNamed(devices, args[|args| - 1], 0)
            case None => Routed(false, routes)
            case Some(d) => Routed(true, [RouteEntry(network, netmask, devices[d].ifindex)] + routes)
    else if args[1] == "del" then
      match RouteDest(args[2..], aton)
      case NoDest(_) => Routed(false, routes)
      case Dest(network, netmask) =>
        match FirstMatch(routes, network, netmask, 0)
        case None => Routed(true, routes)
        case Some(i) => Routed(true, Without(routes, i))
    else Routed(false, routes)
  }

  /** `route add`: refused without four or six arguments, for a bad
    * destination, for one already routed and for an unknown device;
    * otherwise the new route heads the table. */
  lemma AddRules(routes: seq<RouteEntry>, devices: seq<Device>, args: seq<string>, aton: Aton)
    requires |args| >= 2 && args[1] == "add"
    ensures var r := RouteOf(routes, devices, args, aton);
      (r.ok <==> (|args| == 4 || |args| == 6) && RouteDest(args[2..|args| - 1], aton).Dest?
                 && FirstMatch(routes, RouteDest(args[2..|args| - 1], aton).network,
                               RouteDest(args[2..|args| - 1], aton).netmask, 0).None?
                 && FirstNamed(devices, args[|args| - 1], 0).Some?)
      && (!r.ok ==> r.routes == routes)
      && (r.ok ==> r.routes == [RouteEntry(RouteDest(args[2..|args| - 1], aton).network,
                                           RouteDest(args[2..|args| - 1], aton).netmask,
                                           devices[FirstNamed(devices, args[|args| - 1], 0).value].ifindex)] + routes)
  {
  }

  /** `route del`: true for any destination it can read, with the first
    * matching route, if there is one, taken out. */
  lemma DelRules(routes: seq<RouteEntry>, devices: seq<Device>, args: seq<string>, aton: Aton)
    requires |args| >= 2 && args[1] == "del"
    ensures var r := RouteOf(routes, devices, args, aton);
      var d := RouteDest(args[2..], aton);
      (r.ok <==> d.Dest?)
      && (d.NoDest? ==> r.routes == routes)
      && (d.Dest? && FirstMatch(routes, d.network, d.netmask, 0).None? ==> r.routes == routes)
      && (d.Dest? && FirstMatch(routes, d.network, d.netmask, 0).Some? ==>
            r.routes == Without(routes, FirstMatch(routes, d.network, d.netmask, 0).value))
  {
  }

  /** A destination that is not in the table, put at its head, keeps it a
    * table. */
  lemma AddKeepsTable(routes: seq<RouteEntry>, e: RouteEntry)
    requires Table(routes)
    requires e.network & !e.netmask == 0 && Contiguous(e.netmask)
    requires FirstMatch(routes, e.network, e.netmask, 0).None?
    ensures Table([e] + routes)
  {
    var t := [e] + routes;
    forall i, j | 0 <= i < j < |t|
      ensures !(t[i].network == t[j].network && t[i].netmask == t[j].netmask)
    {
      assert t[j] == routes[j - 1];
      if i > 0 {
        assert t[i] == routes[i - 1];
      }
    }
    forall i | 0 <= i < |t|
      ensures t[i].network & !t[i].netmask == 0 && Contiguous(t[i].netmask)
    {
      if i > 0 {
        assert t[i] == routes[i - 1];
      }
    }
  }

  /** Taking a route out keeps a table. */
  lemma WithoutKeepsTable(routes: seq<RouteEntry>, k: nat)
    requires Table(routes) && k < |routes|
    ensures Table(Without(routes, k))
  {
    var t := Without(routes, k);
    forall i, j | 0 <= i < j < |t|
      ensures !(t[i].network == t[j].network && t[i].netmask == t[j].netmask)
    {
      var i' := if i < k then i else i + 1;
      var j' := if j < k then j else j + 1;
      assert t[i] == routes[i'] && t[j] == routes[j'];
    }
  }

  /** Every command keeps the table's shape: masked networks, contiguous
    * netmasks, no destination twice. */
  lemma RouteKeepsTable(routes: seq<RouteEntry>, devices: seq<Device>, args: seq<string>, aton: Aton)
    requires |args| >= 1 && Table(routes)
    ensures Table(RouteOf(routes, devices, args, aton).routes)
  {
    var r := RouteOf(routes, devices, args, aton);
    if |args| == 1 || (|args| == 2 && args[1] == "print") {
    } else if args[1] == "add" {
      if r.ok {
        var d := RouteDest(args[2..|args| - 1], aton);
        AddKeepsTable(routes, r.routes[0]);
      }
    } else if args[1] == "del" {
      var d := RouteDest(args[2..], aton);
      if d.Dest? && FirstMatch(routes, d.network, d.netmask, 0).Some? {
        WithoutKeepsTable(routes, FirstMatch(routes, d.network, d.netmask, 0).value);
      }
    }
  }

  /** The routing table as the C global `routes` holds it. */
  class Routes {
    var routes: seq<RouteEntry>

    constructor ()
      ensures routes == [] && Table(routes)
    {
      routes := [];
    }

    /** `route(argc, argv)` on the current table, with the interface list
      * for the device lookup. */
    method Route(args: seq<string>, devices: seq<Device>, aton: Aton) returns (ok: bool)
      requires |args| >= 1
      modifies this
      ensures Routed(ok, routes) == RouteOf(old(routes), devices, args, aton)
    {
      if |args| == 1 || (|args| == 2 && args[1] == "print") {
        return true;
      }
      if args[1] == "add" {
        if |args| != 4 && |args| != 6 {
          return false;
        }
        var route := GetRouteDest(args[2..|args| - 1], aton);
        if route.NoDest? {
          return false;
        }
        var existing := FindMatchingRoute(routes, route.network, route.netmask);
        if existing.Some? {
          return false;
        }
        var dev := InterfaceByName(devices, args[|args| - 1]);
        if dev.None? {
          return false;
        }
        routes := [RouteEntry(route.network, route.netmask, devices[dev.value].ifindex)] + routes;
        return true;
      }
      if args[1] == "del" {
        var route := GetRouteDest(args[2..], aton);
        if route.NoDest? {
          return false;
        }
        var i := 0;
        while i < |routes|
          invariant i <= |routes| && routes == old(routes)
          invariant FirstMatch(routes, route.network, route.netmask, 0) == FirstMatch(routes, route.network, route.netmask, i)
        {
          if route.network == routes[i].network && route.netmask == routes[i].netmask {
            routes := Without(routes, i);
            break;
          }
          i := i + 1;
        }
        return true;
      }
      return false;
    }
  }
}
