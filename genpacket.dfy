/**
 * The packet `gen_ip` builds from its arguments: the ICMP, UDP and TCP
 * headers, and the IPv4 header with its options (fragment, DF/MF/CE, MAC,
 * TOS, DSCP, ECT, TTL). Checksums, the byte order of the fields and the
 * copying of the payload into place are not part of this model; every
 * field is kept as the number it stands for.
 */
module GenPacket {
  import opened Wrappers
  import opened CInt
  import opened CLib
  import opened GenIp

  /** The second word of an ICMP header: echo identifier and sequence, the
    * pointer of a parameter problem, or nothing. */
  datatype IcmpData = Echo(id: nat, sequence: nat) | Gateway(gateway: nat) | NoData

  datatype Transport =
    | Icmp(icmpType: nat, code: nat, data: IcmpData)
    | Udp(sport: nat, dport: nat, payload: Option<string>)
    | Tcp(tcp: TcpHeader)
    | Other

  /** The TCP header fields `parse_tcp` sets (section 3.1 of RFC 793),
    * less the checksum and the urgent pointer, which it zeroes, with the
    * option bytes and the payload that follow. */
  datatype TcpHeader = TcpHeader(sport: nat, dport: nat, flags: set<Flag>, sequence: nat, ackSeq: nat, window: nat,
                                 doff: nat, options: seq<nat>, payload: Option<string>)

  /** A transport header and the length its parser returns. */
  datatype Segment = Segment(header: Transport, length: nat)

  const ICMP_ECHOREPLY: nat := 0
  const ICMP_ECHO: nat := 8
  const ICMP_PARAMETERPROB: nat := 12

  /** Size of an ICMP, a UDP and a fixed TCP header, and of an IPv4 header
    * without options. */
  const ICMP_HLEN: nat := 8
  const UDP_HLEN: nat := 8
  const TCP_HLEN: nat := 20
  const IP_HLEN: nat := 20

  // ------------------------------------------------------------------
  // ICMP
  // ------------------------------------------------------------------

  /** `parse_icmp(packet, datalen, args)`: `TYPE CODE`, each 0..255; echo
    * and echo reply take `ID SEQUENCE` (each 0..255) and nothing more; a
    * parameter problem takes its pointer (0..255) into the top byte of the
    * second word; every other type takes nothing more. The length is the
    * header and `datalen`. */
  function ParseIcmp(datalen: nat, args: seq<string>): (r: Option<Segment>)
    ensures r.Some? ==> r.value.header.Icmp? && r.value.length == ICMP_HLEN + datalen
    ensures r.Some? ==> (|args| >= 2
      && r.value.header.icmpType == StringToNumber(args[0], 0, 255) < 256
      && r.value.header.code == StringToNumber(args[1], 0, 255) < 256)
    ensures r.Some? && r.value.header.icmpType in {ICMP_ECHOREPLY, ICMP_ECHO} ==> (
      |args| == 4 && r.value.header.data == Echo(StringToNumber(args[2], 0, 255), StringToNumber(args[3], 0, 255))
      && r.value.header.data.id < 256 && r.value.header.data.sequence < 256)
    ensures r.Some? && r.value.header.icmpType == ICMP_PARAMETERPROB ==> (
      |args| >= 3 && r.value.header.data == Gateway(StringToNumber(args[2], 0, 255) * 0x100_0000)
      && r.value.header.data.gateway < U32)
    ensures r.Some? && r.value.header.icmpType !in {ICMP_ECHOREPLY, ICMP_ECHO, ICMP_PARAMETERPROB} ==> (
      |args| == 2 && r.value.header.data == NoData)
    ensures |args| < 2 ==> r.None?
  {
    if |args| < 2 then None
    else
      var t := StringToNumber(args[0], 0, 255);
      var c := StringToNumber(args[1], 0, 255);
      if t == BAD_NUMBER || c == BAD_NUMBER then None
      else if t == ICMP_ECHOREPLY || t == ICMP_ECHO then
        if |args| < 4 then None
        else
          var id := StringToNumber(args[2], 0, 255);
          var sq := StringToNumber(args[3], 0, 255);
          if id == BAD_NUMBER || sq == BAD_NUMBER || |args| > 4 then None
          else Some(Segment(Icmp(t, c, Echo(id, sq)), ICMP_HLEN + datalen))
      else if t == ICMP_PARAMETERPROB then
        if |args| < 3 then None
        else
          var p := StringToNumber(args[2], 0, 255);
          if p == BAD_NUMBER then None
          else Some(Segment(Icmp(t, c, Gateway(p * 0x100_0000)), ICMP_HLEN + datalen))
      else if |args| > 2 then None
      else Some(Segment(Icmp(t, c, NoData), ICMP_HLEN + datalen))
  }

  /** An echo request or reply written in decimal reads back as itself. */
  lemma IcmpEchoRoundTrip(t: nat, c: nat, id: nat, sq: nat, datalen: nat)
    requires t in {ICMP_ECHOREPLY, ICMP_ECHO} && c < 256 && id < 256 && sq < 256
    ensures ParseIcmp(datalen, [NatToDecimal(t), NatToDecimal(c), NatToDecimal(id), NatToDecimal(sq)])
            == Some(Segment(Icmp(t, c, Echo(id, sq)), ICMP_HLEN + datalen))
  {
    StringToNumberReadsDecimal(t, 0, 255);
    StringToNumberReadsDecimal(c, 0, 255);
    StringToNumberReadsDecimal(id, 0, 255);
    StringToNumberReadsDecimal(sq, 0, 255);
  }

  // ------------------------------------------------------------------
  // UDP
  // ------------------------------------------------------------------

  /** The payload after `DATA`, as `CopyData` makes it. */
  function DataOf(data: seq<string>): (r: Option<string>)
    ensures r.Some? <==> Decodes(data)
  {
    if Decodes(data) then Some(Payload(data)) else None
  }

  /** What `parse_udp` makes of `SRCPT DSTPT [DATA ...]`. */
  function UdpOf(datalen: nat, args: seq<string>): (r: Option<Segment>)
    ensures r.Some? <==>
      |args| >= 2 && StringToNumber(args[0], 0, 65535) != BAD_NUMBER && StringToNumber(args[1], 0, 65535) != BAD_NUMBER
      && (|args| == 2 || (args[2] == "DATA" && Decodes(args[3..])))
    ensures r.Some? ==> r.value.header.Udp? && r.value.header.sport < U16 && r.value.header.dport < U16
    ensures r.Some? ==> r.value.length == Wrap(UDP_HLEN + datalen, U16)
    ensures r.Some? ==> r.value.header.payload == if |args| == 2 then None else Some(Payload(args[3..]))
  {
    if |args| < 2 then None
    else
      var spt := StringToNumber(args[0], 0, 65535);
      var dpt := StringToNumber(args[1], 0, 65535);
      if spt == BAD_NUMBER || dpt == BAD_NUMBER then None
      else if |args| == 2 then Some(Segment(Udp(spt, dpt, None), Wrap(UDP_HLEN + datalen, U16)))
      else if args[2] != "DATA" || !Decodes(args[3..]) then None
      else Some(Segment(Udp(spt, dpt, Some(Payload(args[3..]))), Wrap(UDP_HLEN + datalen, U16)))
  }

  /** `parse_udp(packet, datalen, args, dump_flags)`: `SRCPT DSTPT`, each
    * 0..65535, optionally followed by `DATA` and the payload arguments;
    * anything else after the ports is refused. The length is the header
    * and `datalen`, as a `u_int16_t`. */
  method ParseUdp(datalen: nat, args: seq<string>) returns (r: Option<Segment>)
    ensures r == UdpOf(datalen, args)
  {
    if |args| < 2 {
      return None;
    }
    var spt := StringToNumber(args[0], 0, 65535);
    if spt == BAD_NUMBER {
      return None;
    }
    var dpt := StringToNumber(args[1], 0, 65535);
    if dpt == BAD_NUMBER {
      return None;
    }
    var payload: Option<string> := None;
    if |args| > 2 && args[2] == "DATA" {
      payload := CopyData(args[3..]);
      if payload.None? {
        return None;
      }
    } else if |args| > 2 {
      return None;
    }
    r := Some(Segment(Udp(spt, dpt, payload), Wrap(UDP_HLEN + datalen, U16)));
  }

  /** Ports written in decimal, with or without data, read back. */
  lemma UdpRoundTrip(spt: nat, dpt: nat, data: seq<string>, datalen: nat)
    requires spt < U16 && dpt < U16 && Decodes(data)
    ensures UdpOf(datalen, [NatToDecimal(spt), NatToDecimal(dpt)])
            == Some(Segment(Udp(spt, dpt, None), Wrap(UDP_HLEN + datalen, U16)))
    ensures UdpOf(datalen, [NatToDecimal(spt), NatToDecimal(dpt), "DATA"] + data)
            == Some(Segment(Udp(spt, dpt, Some(Payload(data))), Wrap(UDP_HLEN + datalen, U16)))
  {
    StringToNumberReadsDecimal(spt, 0, 65535);
    StringToNumberReadsDecimal(dpt, 0, 65535);
    var args := [NatToDecimal(spt), NatToDecimal(dpt), "DATA"] + data;
    assert args[3..] == data;
  }

  // ------------------------------------------------------------------
  // TCP
  // ------------------------------------------------------------------

  /** The position after an optional argument that starts with `key`. */
  function Past(args: seq<string>, a: nat, key: string): (b: nat)
    ensures b == a || (b == a + 1 && a < |args| && StartsWith(args[a], key))
  {
    if a < |args| && StartsWith(args[a], key) then a + 1 else a
  }

  /** An optional numeric argument: its value and the position after it. */
  datatype Field = Field(value: nat, next: nat)

  /** An optional `SEQ=` or `ACK=`: 0 when absent; None when present but
    * not a number. */
  function NumberField(args: seq<string>, a: nat, key: string): (r: Option<Field>)
    requires |key| == 4
    ensures r.Some? ==> r.value.next == Past(args, a, key)
    ensures r.Some? && r.value.next == a ==> r.value.value == 0
    ensures r.Some? && r.value.next != a ==> Some(r.value.value) == ParseTcpNumber(args[a][4..])
    ensures r.None? <==> Past(args, a, key) != a && ParseTcpNumber(args[a][4..]).None?
  {
    if a < |args| && StartsWith(args[a], key) then
      match ParseTcpNumber(args[a][4..])
      case None => None
      case Some(n) => Some(Field(n, a + 1))
    else Some(Field(0, a))
  }

  /** An optional `WIN=`: 0 when absent; None when present but not a
    * number from 0 to 65535. */
  function WindowField(args: seq<string>, a: nat): (r: Option<Field>)
    ensures r.Some? ==> r.value.next == Past(args, a, "WIN=") && r.value.value < U16
    ensures r.Some? && r.value.next == a ==> r.value.value == 0
    ensures r.Some? && r.value.next != a ==> r.value.value == StringToNumber(args[a][4..], 0, 65535)
    ensures r.None? <==> Past(args, a, "WIN=") != a && StringToNumber(args[a][4..], 0, 65535) == BAD_NUMBER
  {
    if a < |args| && StartsWith(args[a], "WIN=") then
      var w := StringToNumber(args[a][4..], 0, 65535);
      if w == BAD_NUMBER then None else Some(Field(w, a + 1))
    else Some(Field(0, a))
  }

  /** What `parse_tcp_options` makes of the text after `OPT=`. */
  function TcpOptionsOf(opts: string): (r: Option<TcpOptions>)
    ensures r.Some? <==> |Tokens(opts, ',')| <= MAX_OPTION_BYTES && |Tokens(opts, ',')| % 4 == 0
    ensures r.Some? ==> r.value.doff * 4 == TCP_HLEN + |r.value.bytes| && 5 <= r.value.doff <= 15
  {
    var toks := Tokens(opts, ',');
    if |toks| <= MAX_OPTION_BYTES && |toks| % 4 == 0 then Some(TcpOptions((TCP_HLEN + |toks|) / 4, OptionBytes(toks)))
    else None
  }

  /** Option bytes written out read back, with the data offset that
    * counts them. */
  lemma OptionsReadBack(bytes: seq<nat>)
    requires 1 <= |bytes| <= MAX_OPTION_BYTES && |bytes| % 4 == 0 && forall k :: 0 <= k < |bytes| ==> bytes[k] < U8
    ensures TcpOptionsOf(OptionsText(bytes)) == Some(TcpOptions((TCP_HLEN + |bytes|) / 4, bytes))
  {
    OptionsRoundTrip(bytes);
    var toks := Tokens(OptionsText(bytes), ',');
    assert |toks| == |OptionBytes(toks)| == |bytes|;
  }

  /** The options and the position after an optional `OPT=`: five words
    * and no options when absent. */
  datatype OptionsField = OptionsField(options: TcpOptions, next: nat)

  function OptField(args: seq<string>, a: nat): (r: Option<OptionsField>)
    ensures r.Some? ==> r.value.next == Past(args, a, "OPT=")
    ensures r.Some? ==> r.value.options.doff * 4 == TCP_HLEN + |r.value.options.bytes| && 5 <= r.value.options.doff <= 15
    ensures r.Some? && r.value.next == a ==> r.value.options == TcpOptions(5, [])
    ensures r.Some? && r.value.next != a ==> Some(r.value.options) == TcpOptionsOf(args[a][4..])
  {
    if a < |args| && StartsWith(args[a], "OPT=") then
      match TcpOptionsOf(args[a][4..])
      case None => None
      case Some(o) => Some(OptionsField(o, a + 1))
    else Some(OptionsField(TcpOptions(5, []), a))
  }

  /** The end of the arguments: nothing (no payload), or `DATA` and the
    * payload; None for anything else. */
  function DataField(args: seq<string>, a: nat): (r: Option<Option<string>>)
    ensures a >= |args| ==> r == Some(None)
    ensures a < |args| ==> (r.Some? <==> args[a] == "DATA" && Decodes(args[a + 1..]))
    ensures a < |args| && r.Some? ==> r.value == Some(Payload(args[a + 1..]))
  {
    if a >= |args| then Some(None)
    else if args[a] == "DATA" then
      match DataOf(args[a + 1..])
      case None => None
      case Some(p) => Some(Some(p))
    else None
  }

  /** What `parse_tcp` makes of `SRCPT DSTPT FLAGS [SEQ=] [ACK=] [WIN=]
    * [OPT=] [DATA ...]`. */
  function TcpOf(datalen: nat, args: seq<string>): (r: Option<Segment>)
    ensures |args| < 3 ==> r.None?
    ensures |args| >= 3 && FlagsOf(args[2]).None? ==> r.None?
    ensures r.Some? ==> r.value.header.Tcp? && |args| >= 3
    ensures r.Some? ==> (var h := r.value.header.tcp;
      h.sport == StringToNumber(args[0], 0, 65535) != BAD_NUMBER
      && h.dport == StringToNumber(args[1], 0, 65535) != BAD_NUMBER
      && FlagsOf(args[2]) == Some(h.flags))
    ensures r.Some? ==> Sized(r.value, datalen)
  {
    if |args| < 3 then None
    else
      var spt := StringToNumber(args[0], 0, 65535);
      var dpt := StringToNumber(args[1], 0, 65535);
      if spt == BAD_NUMBER || dpt == BAD_NUMBER then None
      else match FlagsOf(args[2])
        case None => None
        case Some(flags) => TcpSeq(datalen, args, TcpHeader(spt, dpt, flags, 0, 0, 0, 5, [], None))
  }

  /** The header as far as it is read when `SEQ=` may follow: the ports
    * and flags set, everything after them at its default. */
  predicate Defaults(h: TcpHeader)
  {
    h.sequence == 0 && h.ackSeq == 0 && h.window == 0 && h.doff == 5 && h.options == [] && h.payload == None
  }

  /** `g` has the ports and the flags of `h`. */
  predicate SameStart(g: TcpHeader, h: TcpHeader)
  {
    g.sport == h.sport && g.dport == h.dport && g.flags == h.flags
  }

  /** The data offset counts the options, the window fits its 16 bits, and
    * the length is header and data as a `u_int16_t`. */
  predicate Sized(s: Segment, datalen: nat)
  {
    s.header.Tcp? && s.header.tcp.doff * 4 == TCP_HLEN + |s.header.tcp.options| && 5 <= s.header.tcp.doff <= 15
    && s.header.tcp.window < U16 && s.length == Wrap(s.header.tcp.doff * 4 + datalen, U16)
  }

  /** The stages of `parse_tcp` after the flags, each taking its optional
    * argument at `a` and handing the rest on. */
  function TcpSeq(datalen: nat, args: seq<string>, h: TcpHeader): (r: Option<Segment>)
    requires Defaults(h)
    ensures r.Some? ==> Sized(r.value, datalen) && SameStart(r.value.header.tcp, h)
  {
    match NumberField(args, 3, "SEQ=")
    case None => None
    case Some(f) => TcpAck(datalen, args, h.(sequence := f.value), f.next)
  }

  function TcpAck(datalen: nat, args: seq<string>, h: TcpHeader, a: nat): (r: Option<Segment>)
    requires h.window == 0 && h.doff == 5 && h.options == []
    ensures r.Some? ==> Sized(r.value, datalen) && SameStart(r.value.header.tcp, h)
    ensures r.Some? ==> r.value.header.tcp.sequence == h.sequence
  {
    match NumberField(args, a, "ACK=")
    case None => None
    case Some(f) => TcpWin(datalen, args, h.(ackSeq := f.value), f.next)
  }

  function TcpWin(datalen: nat, args: seq<string>, h: TcpHeader, a: nat): (r: Option<Segment>)
    requires h.doff == 5 && h.options == []
    ensures r.Some? ==> Sized(r.value, datalen) && SameStart(r.value.header.tcp, h)
    ensures r.Some? ==> r.value.header.tcp.sequence == h.sequence && r.value.header.tcp.ackSeq == h.ackSeq
  {
    match WindowField(args, a)
    case None => None
    case Some(f) => TcpOpt(datalen, args, h.(window := f.value), f.next)
  }

  function TcpOpt(datalen: nat, args: seq<string>, h: TcpHeader, a: nat): (r: Option<Segment>)
    requires h.window < U16
    ensures r.Some? ==> Sized(r.value, datalen) && SameStart(r.value.header.tcp, h)
    ensures r.Some? ==> r.value.header.tcp.sequence == h.sequence && r.value.header.tcp.ackSeq == h.ackSeq
                        && r.value.header.tcp.window == h.window
  {
    match OptField(args, a)
    case None => None
    case Some(f) => TcpData(datalen, args, h.(doff := f.options.doff, options := f.options.bytes), f.next)
  }

  function TcpData(datalen: nat, args: seq<string>, h: TcpHeader, a: nat): (r: Option<Segment>)
    ensures r.Some? ==> r.value.header.Tcp? && r.value.header.tcp == h.(payload := r.value.header.tcp.payload)
    ensures r.Some? ==> r.value.length == Wrap(h.doff * 4 + datalen, U16)
  {
    match DataField(args, a)
    case None => None
    case Some(p) => Some(Segment(Tcp(h.(payload := p)), Wrap(h.doff * 4 + datalen, U16)))
  }

  /** `parse_tcp(packet, datalen, args, dump_flags)`: `SRCPT DSTPT FLAGS`,
    * then in this order the optional `SEQ=`, `ACK=`, `WIN=` and `OPT=`,
    * then optionally `DATA` and the payload arguments; anything else is
    * refused. */
  method ParseTcp(datalen: nat, args: seq<string>) returns (r: Option<Segment>)
    ensures r == TcpOf(datalen, args)
  {
    if |args| < 2 {
      return None;
    }
    var spt := StringToNumber(args[0], 0, 65535);
    if spt == BAD_NUMBER {
      return None;
    }
    var dpt := StringToNumber(args[1], 0, 65535);
    if dpt == BAD_NUMBER || |args| < 3 {
      return None;
    }
    var flags := ParseFlags(args[2]);
    if flags.None? {
      return None;
    }
    r := TcpNumbers(datalen, args, TcpHeader(spt, dpt, flags.value, 0, 0, 0, 5, [], None));
  }

  /** The `SEQ=`, `ACK=` and `WIN=` steps of `parse_tcp`. */
  method TcpNumbers(datalen: nat, args: seq<string>, start: TcpHeader) returns (r: Option<Segment>)
    requires Defaults(start)
    ensures r == TcpSeq(datalen, args, start)
  {
    var h := start;
    var a := 3;
    if a < |args| && StartsWith(args[a], "SEQ=") {
      var n := ParseTcpNumber(args[a][4..]);
      if n.None? {
        return None;
      }
      h := h.(sequence := n.value);
      a := a + 1;
    }
    assert TcpSeq(datalen, args, start) == TcpAck(datalen, args, h, a);
    if a < |args| && StartsWith(args[a], "ACK=") {
      var n := ParseTcpNumber(args[a][4..]);
      if n.None? {
        return None;
      }
      h := h.(ackSeq := n.value);
      a := a + 1;
    }
    assert TcpSeq(datalen, args, start) == TcpWin(datalen, args, h, a);
    if a < |args| && StartsWith(args[a], "WIN=") {
      var window := StringToNumber(args[a][4..], 0, 65535);
      if window == BAD_NUMBER {
        return None;
      }
      h := h.(window := window);
      a := a + 1;
    }
    assert TcpSeq(datalen, args, start) == TcpOpt(datalen, args, h, a);
    r := TcpTail(datalen, args, h, a);
  }

  /** The `OPT=` and `DATA` steps of `parse_tcp`. */
  method TcpTail(datalen: nat, args: seq<string>, start: TcpHeader, from: nat) returns (r: Option<Segment>)
    requires start.window < U16 && start.options == []
    ensures r == TcpOpt(datalen, args, start, from)
  {
    var h := start;
    var a := from;
    if a < |args| && StartsWith(args[a], "OPT=") {
      var o := ParseTcpOptions(args[a][4..]);
      if o.None? {
        return None;
      }
      assert o == TcpOptionsOf(args[a][4..]);
      h := h.(doff := o.value.doff, options := o.value.bytes);
      a := a + 1;
    } else {
      h := h.(doff := 5);
    }
    assert TcpOpt(datalen, args, start, from) == TcpData(datalen, args, h, a);
    var payload: Option<string> := None;
    if a < |args| && args[a] == "DATA" {
      payload := CopyData(args[a + 1..]);
      assert DataField(args, a) == if payload.None? then None else Some(payload);
      if payload.None? {
        return None;
      }
    } else if a < |args| {
      assert DataField(args, a) == None;
      return None;
    }
    assert DataField(args, a) == Some(payload);
    r := Some(Segment(Tcp(h.(payload := payload)), Wrap(h.doff * 4 + datalen, U16)));
  }

  /** The optional arguments are taken in their order, each only where
    * the previous ones leave it. */
  lemma TcpFieldsInOrder(datalen: nat, args: seq<string>, a1: nat, a2: nat, a3: nat, a4: nat)
    requires TcpOf(datalen, args).Some?
    requires a1 == Past(args, 3, "SEQ=") && a2 == Past(args, a1, "ACK=")
    requires a3 == Past(args, a2, "WIN=") && a4 == Past(args, a3, "OPT=")
    ensures var h := TcpOf(datalen, args).value.header.tcp;
      (a1 == 3 ==> h.sequence == 0) && (a1 != 3 ==> Some(h.sequence) == ParseTcpNumber(args[3][4..]))
      && (a2 == a1 ==> h.ackSeq == 0) && (a2 != a1 ==> Some(h.ackSeq) == ParseTcpNumber(args[a1][4..]))
      && (a3 == a2 ==> h.window == 0) && (a3 != a2 ==> h.window == StringToNumber(args[a2][4..], 0, 65535))
      && (a4 == a3 ==> h.doff == 5 && h.options == [])
      && (a4 != a3 ==> Some(TcpOptions(h.doff, h.options)) == TcpOptionsOf(args[a3][4..]))
      && (a4 >= |args| ==> h.payload == None)
      && (a4 < |args| ==> args[a4] == "DATA" && h.payload.Some? && h.payload == DataOf(args[a4 + 1..]))
  {
    var h0 := TcpHeader(StringToNumber(args[0], 0, 65535), StringToNumber(args[1], 0, 65535), FlagsOf(args[2]).value,
                  0, 0, 0, 5, [], None);
    assert TcpOf(datalen, args) == TcpSeq(datalen, args, h0);
    var sq := NumberField(args, 3, "SEQ=").value;
    var h1 := h0.(sequence := sq.value);
    assert TcpSeq(datalen, args, h0) == TcpAck(datalen, args, h1, sq.next);
    var ack := NumberField(args, sq.next, "ACK=").value;
    var h2 := h1.(ackSeq := ack.value);
    assert TcpAck(datalen, args, h1, sq.next) == TcpWin(datalen, args, h2, ack.next);
    var win := WindowField(args, ack.next).value;
    var h3 := h2.(window := win.value);
    assert TcpWin(datalen, args, h2, ack.next) == TcpOpt(datalen, args, h3, win.next);
    var opt := OptField(args, win.next).value;
    var h4 := h3.(doff := opt.options.doff, options := opt.options.bytes);
    assert TcpOpt(datalen, args, h3, win.next) == TcpData(datalen, args, h4, opt.next);
    var p := DataField(args, opt.next).value;
    assert TcpOf(datalen, args).value.header.tcp == h4.(payload := p);
  }

  /** Arguments that carry every optional field, each reading as the
    * corresponding field of `h`. */
  predicate Readings(args: seq<string>, h: TcpHeader)
  {
    |args| >= 8 && h.payload.Some?
    && h.sport == StringToNumber(args[0], 0, 65535) != BAD_NUMBER
    && h.dport == StringToNumber(args[1], 0, 65535) != BAD_NUMBER
    && FlagsOf(args[2]) == Some(h.flags)
    && StartsWith(args[3], "SEQ=") && ParseTcpNumber(args[3][4..]) == Some(h.sequence)
    && StartsWith(args[4], "ACK=") && ParseTcpNumber(args[4][4..]) == Some(h.ackSeq)
    && StartsWith(args[5], "WIN=") && StringToNumber(args[5][4..], 0, 65535) == h.window != BAD_NUMBER
    && StartsWith(args[6], "OPT=") && TcpOptionsOf(args[6][4..]) == Some(TcpOptions(h.doff, h.options))
    && args[7] == "DATA" && DataOf(args[8..]) == h.payload
  }

  /** Arguments that carry every optional field, each readable, give the
    * header those readings describe. */
  lemma TcpAllFields(datalen: nat, args: seq<string>, h: TcpHeader)
    requires Readings(args, h)
    ensures TcpOf(datalen, args) == Some(Segment(Tcp(h), Wrap(h.doff * 4 + datalen, U16)))
  {
    var h0 := h.(sequence := 0, ackSeq := 0, window := 0, doff := 5, options := [], payload := None);
    assert TcpOf(datalen, args) == TcpSeq(datalen, args, h0);
    assert NumberField(args, 3, "SEQ=") == Some(Field(h.sequence, 4));
    var h1 := h0.(sequence := h.sequence);
    assert TcpSeq(datalen, args, h0) == TcpAck(datalen, args, h1, 4);
    assert NumberField(args, 4, "ACK=") == Some(Field(h.ackSeq, 5));
    var h2 := h1.(ackSeq := h.ackSeq);
    assert TcpAck(datalen, args, h1, 4) == TcpWin(datalen, args, h2, 5);
    assert WindowField(args, 5) == Some(Field(h.window, 6));
    var h3 := h2.(window := h.window);
    assert TcpWin(datalen, args, h2, 5) == TcpOpt(datalen, args, h3, 6);
    assert OptField(args, 6) == Some(OptionsField(TcpOptions(h.doff, h.options), 7));
    var h4 := h3.(doff := h.doff, options := h.options);
    assert TcpOpt(datalen, args, h3, 6) == TcpData(datalen, args, h4, 7);
    assert DataField(args, 7) == Some(h.payload);
    assert h4.(payload := h.payload) == h;
  }

  /** The arguments that describe `h`, every optional field written out
    * in the order `parse_tcp` takes them, with the payload arguments. */
  function TcpText(h: TcpHeader, data: seq<string>): (args: seq<string>)
    requires 1 <= |h.options|
  {
    [NatToDecimal(h.sport), NatToDecimal(h.dport), FlagsText(h.flags), "SEQ=" + NatToDecimal(h.sequence),
     "ACK=" + NatToDecimal(h.ackSeq), "WIN=" + NatToDecimal(h.window), "OPT=" + OptionsText(h.options), "DATA"] + data
  }

  /** A header written out by `TcpText` reads back as itself. */
  lemma TcpRoundTrip(h: TcpHeader, data: seq<string>, datalen: nat)
    requires h.sport < U16 && h.dport < U16 && h.window < U16 && h.sequence < BAD_NUMBER && h.ackSeq < BAD_NUMBER
    requires 1 <= |h.options| <= MAX_OPTION_BYTES && |h.options| % 4 == 0
    requires forall k :: 0 <= k < |h.options| ==> h.options[k] < U8
    requires h.doff == (TCP_HLEN + |h.options|) / 4
    requires Decodes(data) && h.payload == Some(Payload(data))
    ensures TcpOf(datalen, TcpText(h, data)) == Some(Segment(Tcp(h), Wrap(h.doff * 4 + datalen, U16)))
  {
    TcpPortsRead(h, data);
    TcpNumbersRead(h, data);
    TcpOptionsRead(h, data);
    TcpDataRead(h, data);
    TcpAllFields(datalen, TcpText(h, data), h);
  }

  /** The ports, the flags and the window of `TcpText` read back. */
  lemma TcpPortsRead(h: TcpHeader, data: seq<string>)
    requires h.sport < U16 && h.dport < U16 && h.window < U16 && 1 <= |h.options|
    ensures |TcpText(h, data)| >= 8
    ensures StringToNumber(TcpText(h, data)[0], 0, 65535) == h.sport
    ensures StringToNumber(TcpText(h, data)[1], 0, 65535) == h.dport
    ensures FlagsOf(TcpText(h, data)[2]) == Some(h.flags)
    ensures StartsWith(TcpText(h, data)[5], "WIN=") && StringToNumber(TcpText(h, data)[5][4..], 0, 65535) == h.window
  {
    var t := TcpText(h, data);
    assert t[0] == NatToDecimal(h.sport) && t[1] == NatToDecimal(h.dport) && t[2] == FlagsText(h.flags);
    assert t[5] == "WIN=" + NatToDecimal(h.window) && t[5][4..] == NatToDecimal(h.window);
    StringToNumberReadsDecimal(h.sport, 0, 65535);
    StringToNumberReadsDecimal(h.dport, 0, 65535);
    StringToNumberReadsDecimal(h.window, 0, 65535);
    FlagsRoundTrip(h.flags);
  }

  /** The sequence and acknowledgement numbers of `TcpText` read back. */
  lemma TcpNumbersRead(h: TcpHeader, data: seq<string>)
    requires h.sequence < BAD_NUMBER && h.ackSeq < BAD_NUMBER && 1 <= |h.options|
    ensures |TcpText(h, data)| >= 8
    ensures StartsWith(TcpText(h, data)[3], "SEQ=") && ParseTcpNumber(TcpText(h, data)[3][4..]) == Some(h.sequence)
    ensures StartsWith(TcpText(h, data)[4], "ACK=") && ParseTcpNumber(TcpText(h, data)[4][4..]) == Some(h.ackSeq)
  {
    var t := TcpText(h, data);
    assert t[3] == "SEQ=" + NatToDecimal(h.sequence) && t[3][4..] == NatToDecimal(h.sequence);
    assert t[4] == "ACK=" + NatToDecimal(h.ackSeq) && t[4][4..] == NatToDecimal(h.ackSeq);
    TcpNumberRoundTrip(h.sequence);
    TcpNumberRoundTrip(h.ackSeq);
  }

  /** The options of `TcpText` read back with the data offset. */
  lemma TcpOptionsRead(h: TcpHeader, data: seq<string>)
    requires 1 <= |h.options| <= MAX_OPTION_BYTES && |h.options| % 4 == 0
    requires forall k :: 0 <= k < |h.options| ==> h.options[k] < U8
    requires h.doff == (TCP_HLEN + |h.options|) / 4
    ensures |TcpText(h, data)| >= 8
    ensures StartsWith(TcpText(h, data)[6], "OPT=") && TcpOptionsOf(TcpText(h, data)[6][4..]) == Some(TcpOptions(h.doff, h.options))
  {
    var t := TcpText(h, data);
    assert t[6] == "OPT=" + OptionsText(h.options) && t[6][4..] == OptionsText(h.options);
    OptionsReadBack(h.options);
  }

  /** The payload of `TcpText` reads back. */
  lemma TcpDataRead(h: TcpHeader, data: seq<string>)
    requires 1 <= |h.options| && Decodes(data) && h.payload == Some(Payload(data))
    ensures |TcpText(h, data)| >= 8
    ensures TcpText(h, data)[7] == "DATA" && DataOf(TcpText(h, data)[8..]) == h.payload
  {
    assert TcpText(h, data)[8..] == data;
  }




  // ------------------------------------------------------------------
  // IPv4
  // ------------------------------------------------------------------

  /** A fragment: its offset in bytes and the length of data it carries. */
  datatype Frag = Frag(offset: nat, length: nat)

  /** The options given before the addresses, as `parse_packet` reads
    * them into its locals. */
  datatype Options = Options(frag: Option<Frag>, df: bool, mf: bool, ce: bool, mac: Option<seq<nat>>,
                             tos: Option<nat>, dscp: Option<nat>, ect: Option<nat>, ttl: Option<nat>)

  /** No option given. */
  const NoOptions: Options := Options(None, false, false, false, None, None, None, None, None)

  /** The IPv4 header fields `parse_packet` fills (section 3.1 of RFC 791),
    * less the checksum, the zero identification and the constant version
    * and header length. `fragOff` holds the flag bits too. */
  datatype IpHeader = IpHeader(tos: nat, totLen: nat, fragOff: nat, ttl: nat, protocol: nat,
                               saddr: seq<nat>, daddr: seq<nat>)

  /** The options read, the Ethernet address (destination and source
    * alike), the IPv4 header and the transport segment. */
  datatype Packet = Packet(options: Options, mac: seq<nat>, ip: IpHeader, segment: Segment)

  /** The flag bits of the fragment field. `IP_CE` is the Linux name of the
    * reserved bit. */
  const IP_CE: nat := 0x8000
  const IP_DF: nat := 0x4000
  const IP_MF: nat := 0x2000

  /** The largest DS code point (section 3 of RFC 2474), which sits above
    * the two ECN bits of the type-of-service byte. */
  const IPT_DSCP_MAX: nat := 0x3f

  /** `x | e` for an ECN value `e` of two bits: only the two low bits of
    * `x` change. */
  function OrLow(x: nat, e: nat): (r: nat)
    requires e < 4
    ensures r / 4 == x / 4
    ensures e == 0 ==> r == x
    ensures x % 4 == 0 ==> r % 4 == e
  {
    var low := x % 4;
    var both := if e == 0 then low else if low == 0 || low == e then e else 3;
    x - low + both
  }

  /** The options read so far, and `parse_packet`'s `argv` after its
    * `argv++` steps: `args[1]` is the argument looked at next, and each
    * option taken drops one argument. */
  datatype Progress = Progress(options: Options, args: seq<string>)

  /** An option argument starting with `key` is next, and more than the
    * four header arguments follow it (`argc > 5`). */
  predicate Offered(args: seq<string>, key: string)
  {
    |args| > 5 && StartsWith(args[1], key)
  }

  /** The same for a whole-word option. */
  predicate Given(args: seq<string>, word: string)
  {
    |args| > 5 && args[1] == word
  }

  /** The header arguments still follow the options read (`argc >= 5`). */
  predicate Fits(s: Progress)
  {
    |s.args| >= 5
  }

  /** `FRAG=<offset>,<length>`: the offset, a multiple of 8 up to 65528,
    * and a length of at least 1, both `atoi` cut to a `u_int16_t`. */
  function FragStep(argv: seq<string>): (r: Option<Progress>)
    ensures r.Some? ==> r.value.options == NoOptions.(frag := r.value.options.frag)
    ensures r.Some? ==> (r.value.options.frag.Some? <==> Offered(argv, "FRAG="))
    ensures r.Some? ==> r.value.args == if Offered(argv, "FRAG=") then argv[1..] else argv
    ensures r.Some? && r.value.options.frag.Some? ==> (var f := r.value.options.frag.value;
      f.offset == Wrap(Atoi(argv[1][5..]), U16) && f.offset <= 65528 && f.offset % 8 == 0 && 1 <= f.length < U16)
    ensures Offered(argv, "FRAG=") ==> (var off := Wrap(Atoi(argv[1][5..]), U16);
      off > 65528 || off % 8 != 0 || StrChr(argv[1], ',', 5).None? ==> r.None?)
    ensures r.Some? ==> InRange(r.value.options) && (|argv| >= 5 ==> Fits(r.value))
  {
    if !Offered(argv, "FRAG=") then Some(Progress(NoOptions, argv))
    else
      var s := argv[1];
      var off := Wrap(Atoi(s[5..]), U16);
      if off > 65528 || off % 8 != 0 then None
      else match StrChr(s, ',', 5)
        case None => None
        case Some(c) =>
          var len := Wrap(Atoi(s[c + 1..]), U16);
          if len < 1 then None else Some(Progress(NoOptions.(frag := Some(Frag(off, len))), argv[1..]))
  }

  /** `DF`, `MF` and `CE`, each taken when it is next. */
  function BitsStep(s: Progress): (r: Progress)
    requires !s.options.df && !s.options.mf && !s.options.ce
    ensures r.options == s.options.(df := r.options.df, mf := r.options.mf, ce := r.options.ce)
    ensures r.options.df == Given(s.args, "DF")
    ensures InRange(s.options) ==> InRange(r.options)
    ensures Fits(s) ==> Fits(r)
  {
    var s1 := if Given(s.args, "DF") then Progress(s.options.(df := true), s.args[1..]) else s;
    var s2 := if Given(s1.args, "MF") then Progress(s1.options.(mf := true), s1.args[1..]) else s1;
    if Given(s2.args, "CE") then Progress(s2.options.(ce := true), s2.args[1..]) else s2
  }

  /** `MAC=`: six octets as `parse_mac` reads them. */
  function MacStep(s: Progress): (r: Option<Progress>)
    requires s.options.mac.None?
    ensures r.Some? ==> r.value.options == s.options.(mac := r.value.options.mac)
    ensures r.Some? ==> (r.value.options.mac.Some? <==> Offered(s.args, "MAC="))
    ensures r.Some? ==> r.value.args == if Offered(s.args, "MAC=") then s.args[1..] else s.args
    ensures r.Some? && r.value.options.mac.Some? ==> r.value.options.mac == MacOf(s.args[1][4..])
    ensures r.None? <==> Offered(s.args, "MAC=") && MacOf(s.args[1][4..]).None?
    ensures r.Some? && InRange(s.options) ==> InRange(r.value.options)
    ensures r.Some? && Fits(s) ==> Fits(r.value)
  {
    if !Offered(s.args, "MAC=") then Some(s)
    else match MacOf(s.args[1][4..])
      case None => None
      case Some(m) => Some(Progress(s.options.(mac := Some(m)), s.args[1..]))
  }

  /** `TOS=`: `atoi` from 0 to 255. */
  function TosStep(s: Progress): (r: Option<Progress>)
    requires s.options.tos.None?
    ensures r.Some? ==> r.value.options == s.options.(tos := r.value.options.tos)
    ensures r.Some? ==> (r.value.options.tos.Some? <==> Offered(s.args, "TOS="))
    ensures r.Some? ==> r.value.args == if Offered(s.args, "TOS=") then s.args[1..] else s.args
    ensures r.Some? && r.value.options.tos.Some? ==> r.value.options.tos.value == Atoi(s.args[1][4..]) < 256
    ensures r.None? <==> Offered(s.args, "TOS=") && !(0 <= Atoi(s.args[1][4..]) <= 255)
    ensures r.Some? && InRange(s.options) ==> InRange(r.value.options)
    ensures r.Some? && Fits(s) ==> Fits(r.value)
  {
    if !Offered(s.args, "TOS=") then Some(s)
    else
      var t := Atoi(s.args[1][4..]);
      if t < 0 || t > 255 then None else Some(Progress(s.options.(tos := Some(t)), s.args[1..]))
  }

  /** `DSCP=`: a code point from 0 to 0x3f, refused after `TOS=`. */
  function DscpStep(s: Progress): (r: Option<Progress>)
    requires s.options.dscp.None?
    ensures r.Some? ==> r.value.options == s.options.(dscp := r.value.options.dscp)
    ensures r.Some? ==> (r.value.options.dscp.Some? <==> Offered(s.args, "DSCP="))
    ensures r.Some? ==> r.value.args == if Offered(s.args, "DSCP=") then s.args[1..] else s.args
    ensures r.Some? && r.value.options.dscp.Some? ==> (s.options.tos.None?
      && r.value.options.dscp.value == StringToNumber(s.args[1][5..], 0, IPT_DSCP_MAX) <= IPT_DSCP_MAX)
    ensures s.options.tos.Some? && Offered(s.args, "DSCP=") ==> r.None?
    ensures r.Some? && InRange(s.options) ==> InRange(r.value.options)
    ensures r.Some? && Fits(s) ==> Fits(r.value)
  {
    if !Offered(s.args, "DSCP=") then Some(s)
    else if s.options.tos.Some? then None
    else
      var d := StringToNumber(s.args[1][5..], 0, IPT_DSCP_MAX);
      if d == BAD_NUMBER then None else Some(Progress(s.options.(dscp := Some(d)), s.args[1..]))
  }

  /** `ECT=`: an ECN value from 0 to 3. */
  function EctStep(s: Progress): (r: Option<Progress>)
    requires s.options.ect.None?
    ensures r.Some? ==> r.value.options == s.options.(ect := r.value.options.ect)
    ensures r.Some? ==> (r.value.options.ect.Some? <==> Offered(s.args, "ECT="))
    ensures r.Some? ==> r.value.args == if Offered(s.args, "ECT=") then s.args[1..] else s.args
    ensures r.Some? && r.value.options.ect.Some? ==> r.value.options.ect.value == StringToNumber(s.args[1][4..], 0, 3) < 4
    ensures r.None? <==> Offered(s.args, "ECT=") && StringToNumber(s.args[1][4..], 0, 3) == BAD_NUMBER
    ensures r.Some? && InRange(s.options) ==> InRange(r.value.options)
    ensures r.Some? && Fits(s) ==> Fits(r.value)
  {
    if !Offered(s.args, "ECT=") then Some(s)
    else
      var e := StringToNumber(s.args[1][4..], 0, 3);
      if e == BAD_NUMBER then None else Some(Progress(s.options.(ect := Some(e)), s.args[1..]))
  }

  /** `TTL=`: `atoi` from 0 to 255. */
  function TtlStep(s: Progress): (r: Option<Progress>)
    requires s.options.ttl.None?
    ensures r.Some? ==> r.value.options == s.options.(ttl := r.value.options.ttl)
    ensures r.Some? ==> (r.value.options.ttl.Some? <==> Offered(s.args, "TTL="))
    ensures r.Some? ==> r.value.args == if Offered(s.args, "TTL=") then s.args[1..] else s.args
    ensures r.Some? && r.value.options.ttl.Some? ==> r.value.options.ttl.value == Atoi(s.args[1][4..]) < 256
    ensures r.None? <==> Offered(s.args, "TTL=") && !(0 <= Atoi(s.args[1][4..]) <= 255)
    ensures r.Some? && InRange(s.options) ==> InRange(r.value.options)
    ensures r.Some? && Fits(s) ==> Fits(r.value)
  {
    if !Offered(s.args, "TTL=") then Some(s)
    else
      var t := Atoi(s.args[1][4..]);
      if t < 0 || t > 255 then None else Some(Progress(s.options.(ttl := Some(t)), s.args[1..]))
  }

  /** The ranges the options are checked against. */
  predicate InRange(o: Options)
  {
    (o.frag.Some? ==> o.frag.value.offset <= 65528 && o.frag.value.offset % 8 == 0 && 1 <= o.frag.value.length < U16)
    && (o.mac.Some? ==> |o.mac.value| == ETH_ALEN)
    && (o.tos.Some? ==> o.tos.value < 256)
    && (o.dscp.Some? ==> o.dscp.value <= IPT_DSCP_MAX)
    && (o.ect.Some? ==> o.ect.value < 4)
    && (o.ttl.Some? ==> o.ttl.value < 256)
  }

  /** The options of `parse_packet`, in the order it looks for them. */
  function OptionsOf(argv: seq<string>): (r: Option<Progress>)
    ensures r.Some? ==> InRange(r.value.options) && !(r.value.options.tos.Some? && r.value.options.dscp.Some?)
    ensures r.Some? && |argv| >= 5 ==> Fits(r.value)
  {
    match FragStep(argv)
    case None => None
    case Some(s) => LaterOf(BitsStep(s))
  }

  /** The options after `DF`, `MF` and `CE`, each stage handing on to
    * the next. */
  function LaterOf(s: Progress): (r: Option<Progress>)
    requires var o := s.options; o.mac.None? && o.tos.None? && o.dscp.None? && o.ect.None? && o.ttl.None? && InRange(o)
    ensures r.Some? ==> InRange(r.value.options) && !(r.value.options.tos.Some? && r.value.options.dscp.Some?)
    ensures r.Some? && Fits(s) ==> Fits(r.value)
  {
    match MacStep(s)
    case None => None
    case Some(s') => FromTos(s')
  }

  function FromTos(s: Progress): (r: Option<Progress>)
    requires var o := s.options; o.tos.None? && o.dscp.None? && o.ect.None? && o.ttl.None? && InRange(o)
    ensures r.Some? ==> InRange(r.value.options) && !(r.value.options.tos.Some? && r.value.options.dscp.Some?)
    ensures r.Some? && Fits(s) ==> Fits(r.value)
  {
    match TosStep(s)
    case None => None
    case Some(s') => FromDscp(s')
  }

  function FromDscp(s: Progress): (r: Option<Progress>)
    requires var o := s.options; o.dscp.None? && o.ect.None? && o.ttl.None? && InRange(o)
    ensures r.Some? ==> InRange(r.value.options) && !(r.value.options.tos.Some? && r.value.options.dscp.Some?)
    ensures r.Some? && Fits(s) ==> Fits(r.value)
  {
    match DscpStep(s)
    case None => None
    case Some(s') => FromEct(s')
  }

  function FromEct(s: Progress): (r: Option<Progress>)
    requires var o := s.options; o.ect.None? && o.ttl.None? && InRange(o)
    ensures r.Some? ==> (InRange(r.value.options)
      && r.value.options.tos == s.options.tos && r.value.options.dscp == s.options.dscp)
    ensures r.Some? && Fits(s) ==> Fits(r.value)
  {
    match EctStep(s)
    case None => None
    case Some(s') => TtlStep(s')
  }

  /** The first options `parse_packet` looks for: `FRAG=`, `DF`, `MF` and
    * `CE`, each taken with an `argv++`. */
  method ReadOptions(argv: seq<string>) returns (r: Option<Progress>)
    ensures r == OptionsOf(argv)
  {
    var s := ReadFrag(argv);
    if s.None? {
      return None;
    }
    var o := s.value.options;
    var args := s.value.args;
    if |args| > 5 && args[1] == "DF" {
      o := o.(df := true);
      args := args[1..];
    }
    if |args| > 5 && args[1] == "MF" {
      o := o.(mf := true);
      args := args[1..];
    }
    if |args| > 5 && args[1] == "CE" {
      o := o.(ce := true);
      args := args[1..];
    }
    assert BitsStep(s.value) == Progress(o, args);
    r := ReadLaterOptions(Progress(o, args));
  }

  /** `FRAG=`: the offset is checked before the comma. */
  method ReadFrag(argv: seq<string>) returns (r: Option<Progress>)
    ensures r == FragStep(argv)
  {
    var args := argv;
    if |args| > 5 && StartsWith(args[1], "FRAG=") {
      var fragoff := Wrap(Atoi(args[1][5..]), U16);
      if fragoff > 65528 || fragoff % 8 != 0 {
        return None;
      }
      var comma := StrChr(args[1], ',', 5);
      if comma.None? {
        return None;
      }
      var fraglen := Wrap(Atoi(args[1][comma.value + 1..]), U16);
      if fraglen < 1 {
        return None;
      }
      return Some(Progress(NoOptions.(frag := Some(Frag(fragoff, fraglen))), args[1..]));
    }
    r := Some(Progress(NoOptions, args));
  }

  /** The options after `CE`: `MAC=` and `TOS=`, then the others. */
  method ReadLaterOptions(start: Progress) returns (r: Option<Progress>)
    requires var o := start.options; o.mac.None? && o.tos.None? && o.dscp.None? && o.ect.None? && o.ttl.None?
    requires InRange(start.options)
    ensures r == LaterOf(start)
  {
    var o := start.options;
    var args := start.args;
    if |args| > 5 && StartsWith(args[1], "MAC=") {
      var mac := ParseMac(args[1][4..]);
      if mac.None? {
        return None;
      }
      o := o.(mac := mac);
      args := args[1..];
    }
    assert LaterOf(start) == FromTos(Progress(o, args));
    if |args| > 5 && StartsWith(args[1], "TOS=") {
      var tos := Atoi(args[1][4..]);
      if tos < 0 || tos > 255 {
        return None;
      }
      o := o.(tos := Some(tos));
      args := args[1..];
    }
    assert LaterOf(start) == FromDscp(Progress(o, args));
    r := ReadDscp(Progress(o, args));
  }

  /** `DSCP=`, refused after `TOS=`, then the options after it. */
  method ReadDscp(start: Progress) returns (r: Option<Progress>)
    requires var o := start.options; o.dscp.None? && o.ect.None? && o.ttl.None? && InRange(o)
    ensures r == FromDscp(start)
  {
    var o := start.options;
    var args := start.args;
    if |args| > 5 && StartsWith(args[1], "DSCP=") {
      if o.tos.Some? {
        return None;
      }
      var dscp := StringToNumber(args[1][5..], 0, IPT_DSCP_MAX);
      if dscp == BAD_NUMBER {
        return None;
      }
      o := o.(dscp := Some(dscp));
      args := args[1..];
    }
    assert FromDscp(start) == FromEct(Progress(o, args));
    r := ReadEct(Progress(o, args));
  }

  /** `ECT=`, then `TTL=`. */
  method ReadEct(start: Progress) returns (r: Option<Progress>)
    requires var o := start.options; o.ect.None? && o.ttl.None? && InRange(o)
    ensures r == FromEct(start)
  {
    var o := start.options;
    var args := start.args;
    if |args| > 5 && StartsWith(args[1], "ECT=") {
      var ect := StringToNumber(args[1][4..], 0, 3);
      if ect == BAD_NUMBER {
        return None;
      }
      o := o.(ect := Some(ect));
      args := args[1..];
    }
    assert EctStep(start) == Some(Progress(o, args));
    r := ReadTtl(Progress(o, args));
  }

  /** `TTL=`. */
  method ReadTtl(start: Progress) returns (r: Option<Progress>)
    requires start.options.ttl.None?
    ensures r == TtlStep(start)
  {
    var o := start.options;
    var args := start.args;
    if |args| > 5 && StartsWith(args[1], "TTL=") {
      var ttl := Atoi(args[1][4..]);
      if ttl < 0 || ttl > 255 {
        return None;
      }
      o := o.(ttl := Some(ttl));
      args := args[1..];
    }
    r := Some(Progress(o, args));
  }

  /** The type-of-service byte: the `TOS=` value or the `DSCP=` code point
    * shifted above the ECN bits (0 without either), with the `ECT=` bits
    * OR'd in. */
  function TosByte(o: Options): (t: nat)
    requires InRange(o)
    ensures t < 256
  {
    var base := if o.dscp.Some? then o.dscp.value * 4 else if o.tos.Some? then o.tos.value else 0;
    if o.ect.Some? then OrLow(base, o.ect.value) else base
  }

  /** A code point and an ECN value land in their own bits, as sections 3
    * of RFC 2474 and 5 of RFC 3168 lay out the byte. */
  lemma DscpAndEct(o: Options)
    requires InRange(o) && o.tos.None? && o.dscp.Some?
    ensures TosByte(o) / 4 == o.dscp.value
    ensures TosByte(o) % 4 == if o.ect.Some? then o.ect.value else 0
  {
  }

  /** `ECT=` changes only the two low bits of a `TOS=` byte. */
  lemma EctKeepsTos(o: Options)
    requires InRange(o) && o.tos.Some? && o.dscp.None?
    ensures TosByte(o) / 4 == o.tos.value / 4
    ensures o.ect.None? || o.ect.value == 0 ==> TosByte(o) == o.tos.value
  {
  }

  /** The fragment field: the offset in 8-byte units, with the DF, MF and
    * CE bits OR'd in. */
  function FragField(o: Options): (f: nat)
    requires InRange(o)
    ensures f < U16
  {
    (if o.frag.Some? then o.frag.value.offset / 8 else 0)
      + (if o.df then IP_DF else 0) + (if o.mf then IP_MF else 0) + (if o.ce then IP_CE else 0)
  }

  /** The offset bits and each flag bit of the fragment field read back as
    * what was given. */
  lemma FragFieldBits(o: Options)
    requires InRange(o)
    ensures FragField(o) % IP_MF == if o.frag.Some? then o.frag.value.offset / 8 else 0
    ensures (FragField(o) / IP_MF) % 2 == 1 <==> o.mf
    ensures (FragField(o) / IP_DF) % 2 == 1 <==> o.df
    ensures FragField(o) / IP_CE == 1 <==> o.ce
  {
  }

  /** The transport part, chosen by the protocol byte of the header; an
    * unknown protocol takes no arguments and its length is `datalen`. */
  function SegmentOf(protocol: nat, datalen: nat, args: seq<string>): (r: Option<Segment>)
  {
    if protocol == IPPROTO_ICMP then ParseIcmp(datalen, args)
    else if protocol == IPPROTO_TCP then TcpOf(datalen, args)
    else if protocol == IPPROTO_UDP then UdpOf(datalen, args)
    else if args != [] then None
    else Some(Segment(Other, datalen))
  }

  /** An Ethernet address of zeros. */
  const NoMac: seq<nat> := [0, 0, 0, 0, 0, 0]

  /** What `parse_packet` makes of its arguments: the options, then
    * `SRC DST LEN PROTOCOL` as `parse_header` reads them (LEN from 0 to
    * 65535, the protocol number cut to the byte of the header), then the
    * protocol's own arguments. None where it returns false. */
  function PacketOf(argv: seq<string>): (r: Option<Packet>)
    ensures |argv| < 5 ==> r.None?
    ensures r.Some? ==> (OptionsOf(argv).Some? && Fits(OptionsOf(argv).value)
      && r.value.options == OptionsOf(argv).value.options)
    ensures OptionsOf(argv).Some? && Fits(OptionsOf(argv).value) ==>
      r == HeaderOf(OptionsOf(argv).value.args[1..], OptionsOf(argv).value.options)
  {
    if |argv| < 5 then None
    else match OptionsOf(argv)
      case None => None
      case Some(s) => HeaderOf(s.args[1..], s.options)
  }

  /** `parse_header` and the transport header, after the options `o`. */
  function HeaderOf(rest: seq<string>, o: Options): (r: Option<Packet>)
    requires InRange(o) && |rest| >= 4
  {
    FieldsOf(o, rest[0], rest[1], rest[2], rest[3], rest[4..])
  }

  /** `parse_header` on `SRC DST LEN PROTOCOL`, then the transport header
    * from `args`. */
  function FieldsOf(o: Options, src: string, dst: string, len: string, proto: string, args: seq<string>): (r: Option<Packet>)
    requires InRange(o)
    ensures r.Some? <==> (StringToNumber(len, 0, 65535) != BAD_NUMBER && ParseProtocol(proto) >= 0
      && AddrOf(Copied(src)).Some? && AddrOf(Copied(dst)).Some?
      && SegmentOf(Wrap(ParseProtocol(proto), U8), StringToNumber(len, 0, 65535), args).Some?)
    ensures r.Some? ==> (var ip := r.value.ip;
      r.value.options == o && Some(ip.saddr) == AddrOf(Copied(src)) && Some(ip.daddr) == AddrOf(Copied(dst))
      && ip.protocol == Wrap(ParseProtocol(proto), U8)
      && Some(r.value.segment) == SegmentOf(ip.protocol, StringToNumber(len, 0, 65535), args))
    ensures r.Some? ==> (var ip := r.value.ip;
      ip.tos == TosByte(o) && ip.fragOff == FragField(o)
      && ip.ttl == (if o.ttl.Some? then o.ttl.value else 255)
      && r.value.mac == (if o.mac.Some? then o.mac.value else NoMac)
      && ip.totLen == Wrap(IP_HLEN + (if o.frag.Some? then o.frag.value.length else r.value.segment.length), U16))
  {
    var datalen := StringToNumber(len, 0, 65535);
    var protocol := ParseProtocol(proto);
    if datalen == BAD_NUMBER || protocol < 0 then None
    else AddressedOf(o, TosByte(o), FragField(o), Wrap(protocol, U8), datalen, src, dst, args)
  }

  /** The addresses `src` and `dst` and the transport header read from
    * `args`, after the protocol and the length are known. */
  function AddressedOf(o: Options, tos: nat, fragOff: nat, protocol: nat, datalen: nat, src: string, dst: string,
                       args: seq<string>): (r: Option<Packet>)
  {
    Carry(o, tos, fragOff, protocol, AddrOf(Copied(src)), AddrOf(Copied(dst)), SegmentOf(protocol, datalen, args))
  }

  /** The packet, when both addresses and the segment read. */
  function Carry(o: Options, tos: nat, fragOff: nat, protocol: nat, saddr: Option<seq<nat>>, daddr: Option<seq<nat>>,
                 seg: Option<Segment>): (r: Option<Packet>)
  {
    if saddr.None? || daddr.None? || seg.None? then None
    else Some(Assemble(o, tos, fragOff, protocol, saddr.value, daddr.value, seg.value))
  }

  /** The packet the options, the header arguments and the segment make. */
  function Assemble(o: Options, tos: nat, fragOff: nat, protocol: nat, saddr: seq<nat>, daddr: seq<nat>, seg: Segment): (p: Packet)
  {
    var totLen := Wrap(IP_HLEN + (if o.frag.Some? then o.frag.value.length else seg.length), U16);
    var ip := IpHeader(tos, totLen, fragOff, if o.ttl.Some? then o.ttl.value else 255,
                       protocol, saddr, daddr);
    Packet(o, if o.mac.Some? then o.mac.value else NoMac, ip, seg)
  }

  /** An address where the options are looked for is no option: the header
    * arguments start right after the command name. */
  lemma AddressFirstTakesNoOptions(argv: seq<string>)
    requires |argv| >= 5 && |argv[1]| > 0 && '0' <= argv[1][0] <= '9'
    ensures OptionsOf(argv) == Some(Progress(NoOptions, argv))
    ensures PacketOf(argv) == HeaderOf(argv[1..], NoOptions)
  {
    assert !StartsWith(argv[1], "FRAG=") && !StartsWith(argv[1], "MAC=") && !StartsWith(argv[1], "TOS=");
    assert !StartsWith(argv[1], "DSCP=") && !StartsWith(argv[1], "ECT=") && !StartsWith(argv[1], "TTL=");
    assert argv[1] != "DF" && argv[1] != "MF" && argv[1] != "CE";
  }

  /** Every field of the header fits its width, and the addresses are four
    * bytes. */
  lemma PacketBounds(argv: seq<string>)
    requires PacketOf(argv).Some?
    ensures var p := PacketOf(argv).value;
      p.ip.tos < 256 && p.ip.ttl < 256 && p.ip.protocol < 256 && p.ip.totLen < U16 && p.ip.fragOff < U16
      && |p.ip.saddr| == 4 && |p.ip.daddr| == 4 && |p.mac| == ETH_ALEN
      && (forall k :: 0 <= k < 4 ==> p.ip.saddr[k] < 256 && p.ip.daddr[k] < 256)
  {
  }

  /** `parse_packet(packet, argc, argv, dump_flags)`. */
  method ParsePacket(argv: seq<string>) returns (r: Option<Packet>)
    ensures r == PacketOf(argv)
  {
    if |argv| < 5 {
      return None;
    }
    var scan := ReadOptions(argv);
    if scan.None? {
      return None;
    }
    r := ReadHeader(scan.value.args[1..], scan.value.options);
  }

  /** `parse_header`, the transport parser for its protocol, and the
    * fields of the IPv4 header the options set. */
  method ReadHeader(rest: seq<string>, o: Options) returns (r: Option<Packet>)
    requires InRange(o) && |rest| >= 4
    ensures r == HeaderOf(rest, o)
  {
    r := ReadFields(o, rest[0], rest[1], rest[2], rest[3], rest[4..]);
  }

  /** `parse_header`: the length, the protocol, then the two addresses. */
  method ReadFields(o: Options, src: string, dst: string, len: string, proto: string, args: seq<string>)
    returns (r: Option<Packet>)
    requires InRange(o)
    ensures r == FieldsOf(o, src, dst, len, proto, args)
  {
    var datalen := StringToNumber(len, 0, 65535);
    if datalen == BAD_NUMBER {
      return None;
    }
    var protocol := ParseProtocol(proto);
    if protocol < 0 {
      return None;
    }
    r := ReadAddressed(o, TosByte(o), FragField(o), Wrap(protocol, U8), datalen, src, dst, args);
  }

  /** The source and destination address, then the transport header. */
  method ReadAddressed(o: Options, tos: nat, fragOff: nat, protocol: nat, datalen: nat, src: string, dst: string,
                       args: seq<string>) returns (r: Option<Packet>)
    ensures r == AddressedOf(o, tos, fragOff, protocol, datalen, src, dst, args)
  {
    var saddr := DottedToAddr(src);
    if saddr.None? {
      return None;
    }
    var daddr := DottedToAddr(dst);
    if daddr.None? {
      return None;
    }
    r := ReadCarried(o, tos, fragOff, protocol, saddr, daddr, datalen, args);
  }

  /** The transport header parsed after the IP header, combined with it. */
  method ReadCarried(o: Options, tos: nat, fragOff: nat, protocol: nat, saddr: Option<seq<nat>>,
                     daddr: Option<seq<nat>>, datalen: nat, args: seq<string>) returns (r: Option<Packet>)
    ensures r == Carry(o, tos, fragOff, protocol, saddr, daddr, SegmentOf(protocol, datalen, args))
  {
    var segment := ReadSegment(protocol, datalen, args);
    r := Carry(o, tos, fragOff, protocol, saddr, daddr, segment);
  }

  /** The `switch` of `parse_packet` on the protocol byte; `args` are the
    * arguments after the protocol. */
  method ReadSegment(protocol: nat, datalen: nat, args: seq<string>) returns (r: Option<Segment>)
    ensures r == SegmentOf(protocol, datalen, args)
  {
    if protocol == IPPROTO_ICMP {
      r := ParseIcmp(datalen, args);
    } else if protocol == IPPROTO_TCP {
      r := ParseTcp(datalen, args);
    } else if protocol == IPPROTO_UDP {
      r := ParseUdp(datalen, args);
    } else if |args| != 0 {
      r := None;
    } else {
      r := Some(Segment(Other, datalen));
    }
  }
}
