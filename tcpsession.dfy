/**
 * The `tcpsession` command: one TCP connection at a time, driven through
 * `gen_ip` and `expect` commands, with the sequence and acknowledgement
 * numbers of both ends kept as the packets go by (sections 3.3 and 3.4 of
 * RFC 793 for the handshake, data and close).
 */
module TcpSession {
  import opened Wrappers
  import opened CInt
  import opened CLib
  import GenIp

  /** `tui_do_command(argc, argv, false)`: whether a command line succeeds.
    * The effects of the commands themselves are not part of this model. */
  type Run = seq<string> -> bool

  /** The two ends of the connection. */
  datatype Side = Original | Reply

  function Peer(d: Side): Side
  {
    if d == Original then Reply else Original
  }

  /** `struct tcp_endpoint`: the interface its packets arrive on, its
    * addresses and ports as typed, and its 32-bit sequence and
    * acknowledgement numbers. */
  datatype Endpoint = Endpoint(interface: string, src: string, dst: string, spt: string, dpt: string, sequence: nat, ackSeq: nat)

  /** `struct tcpsession`: both endpoints and the length change expected of
    * the next packet. */
  datatype Session = Session(original: Endpoint, reply: Endpoint, lenchange: int)

  function At(s: Session, d: Side): Endpoint
  {
    if d == Original then s.original else s.reply
  }

  /** A `u32` counter moved on by `n`, modulo 2^32. */
  function Add32(x: nat, n: int): (r: nat)
    ensures r < U32
    ensures 0 <= x + n < U32 ==> r == x + n
  {
    Wrap(x + n, U32)
  }

  /** `in->seq += n; out->ack += m`, with `in` the endpoint on side `from`
    * and `out` its peer. */
  function Bump(s: Session, from: Side, n: int, m: int): (r: Session)
    ensures At(r, from) == At(s, from).(sequence := Add32(At(s, from).sequence, n))
    ensures At(r, Peer(from)) == At(s, Peer(from)).(ackSeq := Add32(At(s, Peer(from)).ackSeq, m))
    ensures r.lenchange == s.lenchange
  {
    if from == Original then
      s.(original := s.original.(sequence := Add32(s.original.sequence, n)), reply := s.reply.(ackSeq := Add32(s.reply.ackSeq, m)))
    else
      s.(reply := s.reply.(sequence := Add32(s.reply.sequence, n)), original := s.original.(ackSeq := Add32(s.original.ackSeq, m)))
  }

  /** The `expect gen_ip send:IF {IPv4 ...*}` line of `tcp_send`: the
    * packet `out` should see leave, of length `len`, with the addresses and
    * ports reversed and `out`'s numbers swapped. */
  function ExpectLine(out: Endpoint, len: int, flags: string): seq<string>
  {
    ["expect", "gen_ip", "send:" + out.interface, ExpectHead(out) + (IntToDecimal(len) + ExpectTail(out, flags))]
  }

  /** The packet pattern before its length. */
  function ExpectHead(out: Endpoint): string
  {
    "{IPv4 " + out.dst + " " + out.src + " "
  }

  /** The packet pattern after its length. */
  function ExpectTail(out: Endpoint, flags: string): (t: string)
    ensures |t| > 0 && t[0] == ' '
  {
    " 6 " + out.dpt + " " + out.spt + " " + flags + " SEQ=" + NatToDecimal(out.ackSeq) + " ACK=" + NatToDecimal(out.sequence) + "*}"
  }

  /** The `gen_ip IF=...` line of `tcp_send`: the packet `in` sends. */
  function SendLine(e: Endpoint, datalen: int, flags: string, win: Option<string>, data: seq<string>): seq<string>
  {
    ["gen_ip", "IF=" + e.interface, e.src, e.dst, IntToDecimal(datalen), "6", e.spt, e.dpt, flags,
     "SEQ=" + NatToDecimal(e.sequence), "ACK=" + NatToDecimal(e.ackSeq)]
    + (if win.Some? then [win.value] else [])
    + (if |data| > 0 then ["DATA"] + data else [])
  }

  /** `tcp_send(in, out, datalen, ...)` with `in` on side `from`: first the
    * expectation that the peer sees `datalen + lenchange` bytes, then the
    * packet itself; false as soon as one command fails. */
  function TcpSend(run: Run, s: Session, from: Side, datalen: int, flags: string, win: Option<string>, data: seq<string>): bool
  {
    run(ExpectLine(At(s, Peer(from)), datalen + s.lenchange, flags))
    && run(SendLine(At(s, from), datalen, flags, win, data))
  }

  /** The expectation names its length: two lengths give two different
    * lines. */
  lemma ExpectLengthDistinct(out: Endpoint, a: int, b: int, flags: string)
    requires LONG_MIN <= a <= LONG_MAX && LONG_MIN <= b <= LONG_MAX
    requires ExpectLine(out, a, flags) == ExpectLine(out, b, flags)
    ensures a == b
  {
    assert ExpectLine(out, a, flags)[3] == ExpectLine(out, b, flags)[3];
    DropPrefix(ExpectHead(out), IntToDecimal(a) + ExpectTail(out, flags), IntToDecimal(b) + ExpectTail(out, flags));
    NumeralsBeforeSameText(a, b, ExpectTail(out, flags));
  }

  /** Two texts with the same beginning end alike. */
  lemma DropPrefix(h: string, x: string, y: string)
    requires h + x == h + y
    ensures x == y
  {
    assert x == (h + x)[|h|..];
    assert y == (h + y)[|h|..];
  }

  /** Two numerals before the same non-digit text are the same number. */
  lemma NumeralsBeforeSameText(a: int, b: int, t: string)
    requires LONG_MIN <= a <= LONG_MAX && LONG_MIN <= b <= LONG_MAX
    requires |t| > 0 && !IsDigit(t[0])
    requires IntToDecimal(a) + t == IntToDecimal(b) + t
    ensures a == b
  {
    StrToLDecimal(a, t);
    StrToLDecimal(b, t);
  }

  /** `gen_ip_data_length(datanum, data)`: the length of the payload, or
    * -1 when an argument does not decode. */
  function DataLength(data: seq<string>): (r: int)
    ensures r == -1 <==> !GenIp.Decodes(data)
  {
    if GenIp.Decodes(data) then |GenIp.Payload(data)| else -1
  }

  /** The session `open_session` starts from: the original side at 1000,
    * the reply side at 2000, each acknowledging the other's number. */
  function Fresh(names: seq<string>): (s: Session)
    requires |names| == 8
  {
    Session(Endpoint("eth0", names[0], names[1], names[2], names[3], 1000, 2000),
            Endpoint("eth1", names[4], names[5], names[6], names[7], 2000, 1000), 0)
  }

  /** `open_session`: SYN, SYN/ACK and ACK, each SYN taking one sequence
    * number; None, and so no session, when a step fails. */
  function OpenOf(run: Run, names: seq<string>): Option<Session>
    requires |names| == 8
  {
    var s0 := Fresh(names);
    if !TcpSend(run, s0, Original, 0, "SYN", Some("WIN=512"), []) then None
    else
      var s1 := Bump(s0, Original, 1, 1);
      if !TcpSend(run, s1, Reply, 0, "SYN/ACK", Some("WIN=512"), []) then None
      else
        var s2 := Bump(s1, Reply, 1, 1);
        if !TcpSend(run, s2, Original, 0, "ACK", Some("WIN=512"), []) then None
        else Some(s2)
  }

  /** An open session starts at 1001 for the original side and 2001 for
    * the reply side, each acknowledging the other, with no length change
    * pending and the endpoints as given. */
  lemma OpenNumbers(run: Run, names: seq<string>)
    requires |names| == 8 && OpenOf(run, names).Some?
    ensures var s := OpenOf(run, names).value;
      s.original == Endpoint("eth0", names[0], names[1], names[2], names[3], 1001, 2001)
      && s.reply == Endpoint("eth1", names[4], names[5], names[6], names[7], 2001, 1001)
      && s.lenchange == 0
  {
  }

  /** The outcome of a command: its return value and the session left. */
  datatype Step = Step(ok: bool, curr: Option<Session>)

  /** `send_data(in, out, ...)`: the data packet and the peer's ACK. Once
    * the data is sent, `in` has used `len` sequence numbers, `out` has
    * acknowledged `len + lenchange` and no length change is pending,
    * whether or not the ACK goes through. */
  function SendDataOf(run: Run, s: Session, from: Side, data: seq<string>): Step
  {
    var len := DataLength(data);
    if !TcpSend(run, s, from, len, "ACK", None, data) then Step(false, Some(s))
    else
      var s1 := Bump(s, from, len, len + s.lenchange).(lenchange := 0);
      Step(TcpSend(run, s1, Peer(from), 0, "ACK", Some("WIN=512"), []), Some(s1))
  }

  /** The session after the two FINs of a close that `from` starts. */
  function BothFins(s: Session, from: Side): Session
  {
    Bump(Bump(s, from, 1, 1), Peer(from), 1, 1)
  }

  /** Each FIN takes one sequence number: after both, each side's
    * sequence and acknowledgement numbers have moved on by exactly one. */
  lemma FinsTakeOneEach(s: Session, from: Side)
    ensures var t := BothFins(s, from);
      t.original == s.original.(sequence := Add32(s.original.sequence, 1), ackSeq := Add32(s.original.ackSeq, 1))
      && t.reply == s.reply.(sequence := Add32(s.reply.sequence, 1), ackSeq := Add32(s.reply.ackSeq, 1))
      && t.lenchange == s.lenchange
  {
  }

  /** `close_session(in, out)`: FIN/ACK, the peer's FIN/ACK and the last
    * ACK; the session is gone only when all three are sent, and a failure
    * keeps the numbers moved so far. */
  function CloseOf(run: Run, s: Session, from: Side): Step
  {
    if !TcpSend(run, s, from, 0, "FIN/ACK", None, []) then Step(false, Some(s))
    else
      var s1 := Bump(s, from, 1, 1);
      if !TcpSend(run, s1, Peer(from), 0, "FIN/ACK", None, []) then Step(false, Some(s1))
      else if !TcpSend(run, BothFins(s, from), from, 0, "ACK", None, []) then Step(false, Some(BothFins(s, from)))
      else Step(true, None)
  }

  /** `reset_session(in, out)`: one RST, after which the session is gone. */
  function ResetOf(run: Run, s: Session, from: Side): Step
  {
    if TcpSend(run, s, from, 0, "RST", None, []) then Step(true, None) else Step(false, Some(s))
  }

  /** The side `original` or `reply` names. */
  function SideNamed(word: string): Option<Side>
  {
    if word == "original" then Some(Original) else if word == "reply" then Some(Reply) else None
  }

  /** `tcpsession(argc, argv)`, `argv[0]` being the command name, with
    * `LENCHANGE` refused when no session is open. */
  function TcpSessionOf(curr: Option<Session>, args: seq<string>, run: Run): (r: Step)
  {
    if |args| < 2 then Step(false, curr)
    else if args[1] == "OPEN" then
      if curr.Some? then Step(false, curr)
      else if |args| == 6 then
        var o := OpenOf(run, [args[2], args[3], args[4], args[5], args[3], args[2], args[5], args[4]]);
        Step(o.Some?, o)
      else if |args| == 10 then
        var o := OpenOf(run, args[2..10]);
        Step(o.Some?, o)
      else Step(false, curr)
    else if args[1] == "DATA" then
      if curr.None? || |args| < 3 || SideNamed(args[2]).None? then Step(false, curr)
      else SendDataOf(run, curr.value, SideNamed(args[2]).value, args[3..])
    else if args[1] == "LENCHANGE" then
      if |args| != 3 || Atoi(args[2]) == 0 || curr.None? then Step(false, curr)
      else Step(true, Some(curr.value.(lenchange := Atoi(args[2]))))
    else if args[1] == "CLOSE" then
      if curr.None? || |args| != 3 || SideNamed(args[2]).None? then Step(false, curr)
      else CloseOf(run, curr.value, SideNamed(args[2]).value)
    else if args[1] == "RESET" then
      if curr.None? || |args| != 3 || SideNamed(args[2]).None? then Step(false, curr)
      else ResetOf(run, curr.value, SideNamed(args[2]).value)
    else if args[1] == "ABANDON" then
      if curr.None? || |args| != 2 then Step(false, curr) else Step(true, None)
    else Step(false, curr)
  }

  /** `tcpsession` as written: `LENCHANGE` stores through `curr` without
    * checking it, so with no session open it dereferences NULL (None
    * here); every other case is as above. */
  function TcpSessionAsWritten(curr: Option<Session>, args: seq<string>, run: Run): Option<Step>
  {
    if |args| == 3 && args[1] == "LENCHANGE" && Atoi(args[2]) != 0 && curr.None? then None
    else Some(TcpSessionOf(curr, args, run))
  }

  /** `tcpsession LENCHANGE 5` before any `OPEN`: a NULL dereference as
    * written, a refusal that keeps no session once guarded. */
  lemma LenchangeWithoutSession(run: Run)
    ensures TcpSessionAsWritten(None, ["tcpsession", "LENCHANGE", "5"], run).None?
    ensures TcpSessionOf(None, ["tcpsession", "LENCHANGE", "5"], run) == Step(false, None)
  {
    var args := ["tcpsession", "LENCHANGE", "5"];
    assert args[2] == "5";
    StrToLDecimal(5, []);
    assert IntToDecimal(5) + [] == "5";
  }

  /** `OPEN`: refused while a session is open; a failed handshake leaves
    * none; the six-argument form mirrors addresses and ports for the reply
    * side; a success starts at 1001 and 2001. */
  lemma OpenRules(curr: Option<Session>, args: seq<string>, run: Run)
    requires |args| >= 2 && args[1] == "OPEN"
    ensures var r := TcpSessionOf(curr, args, run);
      (curr.Some? ==> r == Step(false, curr))
      && (curr.None? ==> (r.ok <==> r.curr.Some?))
      && (curr.None? && |args| != 6 && |args| != 10 ==> r == Step(false, None))
      && (curr.None? && |args| == 6 && r.ok ==>
            r.curr.value.original == Endpoint("eth0", args[2], args[3], args[4], args[5], 1001, 2001)
            && r.curr.value.reply == Endpoint("eth1", args[3], args[2], args[5], args[4], 2001, 1001))
      && (curr.None? && |args| == 10 && r.ok ==>
            r.curr.value.original == Endpoint("eth0", args[2], args[3], args[4], args[5], 1001, 2001)
            && r.curr.value.reply == Endpoint("eth1", args[6], args[7], args[8], args[9], 2001, 1001))
  {
    if curr.None? && |args| == 6 {
      var names := [args[2], args[3], args[4], args[5], args[3], args[2], args[5], args[4]];
      if OpenOf(run, names).Some? {
        OpenNumbers(run, names);
      }
    } else if curr.None? && |args| == 10 {
      if OpenOf(run, args[2..10]).Some? {
        OpenNumbers(run, args[2..10]);
      }
    }
  }

  /** `DATA`, `CLOSE`, `RESET`, `ABANDON` and `LENCHANGE` need an open
    * session; without one they fail and leave none. */
  lemma NeedsSession(args: seq<string>, run: Run)
    requires |args| >= 2 && args[1] in ["DATA", "CLOSE", "RESET", "ABANDON", "LENCHANGE"]
    ensures TcpSessionOf(None, args, run) == Step(false, None)
  {
  }

  /** `DATA` on an open session: the data packet is expected at its length
    * plus the pending change; once it is sent the sender has used `len`
    * sequence numbers, the receiver acknowledged `len + lenchange`, and
    * the change is spent. */
  lemma DataRules(s: Session, args: seq<string>, run: Run)
    requires |args| >= 3 && args[1] == "DATA" && SideNamed(args[2]).Some?
    ensures var d := SideNamed(args[2]).value;
      var len := DataLength(args[3..]);
      var r := TcpSessionOf(Some(s), args, run);
      var sent := run(ExpectLine(At(s, Peer(d)), len + s.lenchange, "ACK"))
                  && run(SendLine(At(s, d), len, "ACK", None, args[3..]));
      (!sent ==> r == Step(false, Some(s)))
      && (sent ==>
            r.curr.Some?
            && At(r.curr.value, d) == At(s, d).(sequence := Add32(At(s, d).sequence, len))
            && At(r.curr.value, Peer(d)) == At(s, Peer(d)).(ackSeq := Add32(At(s, Peer(d)).ackSeq, len + s.lenchange))
            && r.curr.value.lenchange == 0)
  {
  }

  /** `close_session`: the session is gone exactly when all three packets
    * are sent, the last ACK with both FINs counted; a failure keeps the
    * session with the numbers moved so far. */
  lemma CloseRules(run: Run, s: Session, from: Side)
    ensures var r := CloseOf(run, s, from);
      (r.ok <==> r.curr.None?)
      && (r.ok ==> TcpSend(run, BothFins(s, from), from, 0, "ACK", None, []))
      && (!r.ok ==> r.curr == Some(s) || r.curr == Some(Bump(s, from, 1, 1)) || r.curr == Some(BothFins(s, from)))
  {
  }

  /** `RESET` on an open session drops it after one RST, and keeps it
    * unchanged when the RST is not sent. */
  lemma ResetRules(s: Session, args: seq<string>, run: Run)
    requires |args| == 3 && args[1] == "RESET" && SideNamed(args[2]).Some?
    ensures var r := TcpSessionOf(Some(s), args, run);
      (r.ok <==> r.curr.None?) && (!r.ok ==> r.curr == Some(s))
  {
  }

  /** `ABANDON` with no further argument drops an open session. */
  lemma AbandonRules(s: Session, args: seq<string>, run: Run)
    requires |args| >= 2 && args[1] == "ABANDON"
    ensures TcpSessionOf(Some(s), args, run) == (if |args| == 2 then Step(true, None) else Step(false, Some(s)))
  {
  }

  /** `LENCHANGE n`: refused for another argument count or a zero change;
    * otherwise only the pending change is set. */
  lemma LenchangeRules(s: Session, args: seq<string>, run: Run)
    requires |args| >= 2 && args[1] == "LENCHANGE"
    ensures var r := TcpSessionOf(Some(s), args, run);
      (r.ok <==> |args| == 3 && Atoi(args[2]) != 0)
      && (!r.ok ==> r.curr == Some(s))
      && (r.ok ==> r.curr == Some(s.(lenchange := Atoi(args[2]))))
  {
  }

  /** The session table: the C global `curr`. */
  class TcpSessions {
    var curr: Option<Session>

    constructor ()
      ensures curr == None
    {
      curr := None;
    }

    /** `tcp_send`: the expectation, then the packet; false as soon as one
      * command fails. */
    static method Send(run: Run, s: Session, from: Side, datalen: int, flags: string, win: Option<string>, data: seq<string>)
      returns (ok: bool)
      ensures ok == TcpSend(run, s, from, datalen, flags, win, data)
    {
      if !run(ExpectLine(At(s, Peer(from)), datalen + s.lenchange, flags)) {
        return false;
      }
      var argv := SendArgv(At(s, from), datalen, flags, win, data);
      ok := run(argv);
    }

    /** The second command line of `tcp_send`, the data words copied one by
      * one. */
    static method SendArgv(e: Endpoint, datalen: int, flags: string, win: Option<string>, data: seq<string>)
      returns (argv: seq<string>)
      ensures argv == SendLine(e, datalen, flags, win, data)
    {
      argv := ["gen_ip", "IF=" + e.interface, e.src, e.dst, IntToDecimal(datalen), "6", e.spt, e.dpt, flags,
               "SEQ=" + NatToDecimal(e.sequence), "ACK=" + NatToDecimal(e.ackSeq)];
      if win.Some? {
        argv := argv + [win.value];
      }
      ghost var base := argv;
      if |data| > 0 {
        argv := argv + ["DATA"];
        var i := 0;
        while i < |data|
          invariant i <= |data| && argv == base + ["DATA"] + data[..i]
        {
          argv := argv + [data[i]];
          i := i + 1;
        }
        assert data[..i] == data;
      }
    }

    /** `in->seq += n; out->ack += m` on the open session. */
    method Advance(from: Side, n: int, m: int)
      requires curr.Some?
      modifies this
      ensures curr == Some(Bump(old(curr).value, from, n, m))
    {
      var s := curr.value;
      if from == Original {
        curr := Some(s.(original := s.original.(sequence := Add32(s.original.sequence, n)), reply := s.reply.(ackSeq := Add32(s.reply.ackSeq, m))));
      } else {
        curr := Some(s.(reply := s.reply.(sequence := Add32(s.reply.sequence, n)), original := s.original.(ackSeq := Add32(s.original.ackSeq, m))));
      }
    }

    method OpenSession(run: Run, names: seq<string>) returns (ok: bool)
      requires |names| == 8
      modifies this
      ensures curr == OpenOf(run, names) && ok == curr.Some?
    {
      curr := Some(Fresh(names));
      ok := Send(run, curr.value, Original, 0, "SYN", Some("WIN=512"), []);
      if ok {
        Advance(Original, 1, 1);
        ok := Send(run, curr.value, Reply, 0, "SYN/ACK", Some("WIN=512"), []);
        if ok {
          Advance(Reply, 1, 1);
          ok := Send(run, curr.value, Original, 0, "ACK", Some("WIN=512"), []);
        }
      }
      if !ok {
        curr := None;
      }
    }

    method SendData(run: Run, from: Side, data: seq<string>) returns (ok: bool)
      requires curr.Some?
      modifies this
      ensures Step(ok, curr) == SendDataOf(run, old(curr).value, from, data)
    {
      var len := GenIp.GenIpDataLength(data);
      assert len == DataLength(data);
      ok := Send(run, curr.value, from, len, "ACK", None, data);
      if !ok {
        return;
      }
      var change := curr.value.lenchange;
      Advance(from, len, len + change);
      curr := Some(curr.value.(lenchange := 0));
      ghost var s1 := Bump(old(curr).value, from, len, len + old(curr).value.lenchange).(lenchange := 0);
      assert curr == Some(s1);
      ok := Send(run, curr.value, Peer(from), 0, "ACK", Some("WIN=512"), []);
    }

    method CloseSession(run: Run, from: Side) returns (ok: bool)
      requires curr.Some?
      modifies this
      ensures Step(ok, curr) == CloseOf(run, old(curr).value, from)
    {
      ok := Send(run, curr.value, from, 0, "FIN/ACK", None, []);
      if !ok {
        return;
      }
      Advance(from, 1, 1);
      ok := Send(run, curr.value, Peer(from), 0, "FIN/ACK", None, []);
      if !ok {
        return;
      }
      Advance(Peer(from), 1, 1);
      ok := Send(run, curr.value, from, 0, "ACK", None, []);
      if !ok {
        return;
      }
      curr := None;
    }

    method ResetSession(run: Run, from: Side) returns (ok: bool)
      requires curr.Some?
      modifies this
      ensures Step(ok, curr) == ResetOf(run, old(curr).value, from)
    {
      ok := Send(run, curr.value, from, 0, "RST", None, []);
      if ok {
        curr := None;
      }
    }

    /** `tcpsession(argc, argv)`. */
    method TcpSession(args: seq<string>, run: Run) returns (ok: bool)
      modifies this
      ensures Step(ok, curr) == TcpSessionOf(old(curr), args, run)
    {
      if |args| < 2 {
        return false;
      }
      if args[1] == "OPEN" {
        if curr.Some? {
          return false;
        }
        if |args| == 6 {
          ok := OpenSession(run, [args[2], args[3], args[4], args[5], args[3], args[2], args[5], args[4]]);
          return;
        }
        if |args| == 10 {
          ok := OpenSession(run, args[2..10]);
          return;
        }
        return false;
      }
      if args[1] == "DATA" {
        if curr.None? || |args| < 3 {
          return false;
        }
        var d := SideNamed(args[2]);
        if d.None? {
          return false;
        }
        ok := SendData(run, d.value, args[3..]);
        return;
      }
      if args[1] == "LENCHANGE" {
        if |args| != 3 {
          return false;
        }
        var change := Atoi(args[2]);
        if change == 0 || curr.None? {
          return false;
        }
        curr := Some(curr.value.(lenchange := change));
        return true;
      }
      if args[1] == "CLOSE" || args[1] == "RESET" {
        if curr.None? || |args| != 3 {
          return false;
        }
        var d := SideNamed(args[2]);
        if d.None? {
          return false;
        }
        if args[1] == "CLOSE" {
          ok := CloseSession(run, d.value);
        } else {
          ok := ResetSession(run, d.value);
        }
        return;
      }
      if args[1] == "ABANDON" {
        if curr.None? || |args| != 2 {
          return false;
        }
        curr := None;
        return true;
      }
      return false;
    }
  }
}
