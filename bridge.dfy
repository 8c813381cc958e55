/**
 * The simulator's end of the message bridge: the copies to and from the
 * interposed program's memory, the handler for the messages that program
 * sends, the hand-over of a fresh channel on fork, and the loop that drains
 * the program's output and messages.
 */
module Bridge {
  import opened Wrappers
  import opened CInt
  import opened CLib
  import opened Wire

  // ------------------------------------------------------------------
  // Names used in the trace
  // ------------------------------------------------------------------

  /** `protofamily`: only PF_INET has a name; any other family is fatal. */
  function ProtoFamily(pf: int): (r: Result<string>)
    ensures r.Ok? <==> pf == PF_INET
    ensures r.Ok? ==> r.value == "PF_INET"
  {
    if pf == PF_INET then Ok("PF_INET") else Barf
  }

  /** `sockopt`: the four get options and the two set options of iptables. */
  function SockoptName(opt: int, get: bool): (r: Result<string>)
    ensures r.Ok? <==> if get then IPT_SO_GET_INFO <= opt <= IPT_SO_GET_ENTRIES + 2
                           else IPT_SO_SET_REPLACE <= opt <= IPT_SO_SET_ADD_COUNTERS
  {
    if get then
      if opt == IPT_SO_GET_INFO then Ok("GET_INFO")
      else if opt == IPT_SO_GET_ENTRIES then Ok("GET_ENTRIES")
      else if opt == IPT_SO_GET_ENTRIES + 1 then Ok("GET_REVISION_MATCH")
      else if opt == IPT_SO_GET_ENTRIES + 2 then Ok("GET_REVISION_TARGET")
      else Barf
    else
      if opt == IPT_SO_SET_REPLACE then Ok("SET_REPLACE")
      else if opt == IPT_SO_SET_ADD_COUNTERS then Ok("SET_ADD_COUNTERS")
      else Barf
  }

  /** The errno values `err` knows by name. */
  const NamedErrnos: set<int> := (set n | 1 <= n <= 34) + {40, 92, 93}

  /** `err`: the decimal text of a non-negative value, `-NAME` for a known
    * negative errno, fatal for any other negative value. */
  function Err(e: int): (r: Result<string>)
    ensures e >= 0 ==> r == Ok(IntToDecimal(e))
    ensures e < 0 ==> (r.Ok? <==> -e in NamedErrnos)
    ensures e < 0 && r.Ok? ==> |r.value| >= 3 && r.value[0] == '-' && r.value[1] == 'E'
  {
    if e >= 0 then Ok(IntToDecimal(e))
    else match -e
      case 1 => Ok("-EPERM")
      case 2 => Ok("-ENOENT")
      case 3 => Ok("-ESRCH")
      case 4 => Ok("-EINTR")
      case 5 => Ok("-EIO")
      case 6 => Ok("-ENXIO")
      case 7 => Ok("-E2BIG")
      case 8 => Ok("-ENOEXEC")
      case 9 => Ok("-EBADF")
      case 10 => Ok("-ECHILD")
      case 11 => Ok("-EAGAIN")
      case 12 => Ok("-ENOMEM")
      case 13 => Ok("-EACCES")
      case 14 => Ok("-EFAULT")
      case 15 => Ok("-ENOTBLK")
      case 16 => Ok("-EBUSY")
      case 17 => Ok("-EEXIST")
      case 18 => Ok("-EXDEV")
      case 19 => Ok("-ENODEV")
      case 20 => Ok("-ENOTDIR")
      case 21 => Ok("-EISDIR")
      case 22 => Ok("-EINVAL")
      case 23 => Ok("-ENFILE")
      case 24 => Ok("-EMFILE")
      case 25 => Ok("-ENOTTY")
      case 26 => Ok("-ETXTBSY")
      case 27 => Ok("-EFBIG")
      case 28 => Ok("-ENOSPC")
      case 29 => Ok("-ESPIPE")
      case 30 => Ok("-EROFS")
      case 31 => Ok("-EMLINK")
      case 32 => Ok("-EPIPE")
      case 33 => Ok("-EDOM")
      case 34 => Ok("-ERANGE")
      case 93 => Ok("-EPROTONOSUPPORT")
      case 92 => Ok("-ENOPROTOOPT")
      case 40 => Ok("-ELOOP")
      case _ => Barf
  }

  // ------------------------------------------------------------------
  // The message handler
  // ------------------------------------------------------------------

  /** An `unsigned long` operand passed where C expects an `int`. */
  function AsInt(x: nat): (r: int)
    ensures IsInt32(r) && Wrap(r, U32) == Wrap(x, U32)
  {
    ToInt32(Wrap(x, U32))
  }

  /** `*(int *)&x = v` on a little-endian machine: the low 32 bits of `x`
    * become `v`, the high bits stay. */
  function SetLow32(x: nat, v: int): (r: nat)
    ensures r % U32 == Wrap(v, U32) && r / U32 == x / U32
  {
    (x / U32) * U32 + Wrap(v, U32)
  }

  /** What the simulated kernel's `nf_getsockopt` answers: its return value
    * and the option length it writes back. */
  datatype SockoptAnswer = SockoptAnswer(retval: int, optlen: int)

  /** The effect of one call of `handle_userspace_message`: the read came up
    * short (false), the process barfs, or the message was handled, perhaps
    * with a reply written back, kernel memory updated and `*status` set. */
  datatype Reaction = ReadFailed | Abort | Reacted(reply: Option<Message>, kmem: Memory, status: Option<int>)

  /** `handle_userspace_message` applied to one frame. `hasStatus` is false
    * when the caller passed a NULL `status`; `getsockopt` and `setsockopt`
    * are the simulated kernel's `nf_getsockopt` and `nf_setsockopt`. */
  function Handle(f: Frame, strace: bool, hasStatus: bool, kmem: Memory,
                  getsockopt: Args -> SockoptAnswer, setsockopt: Args -> int): (r: Reaction)
    ensures !f.Whole? ==> r == ReadFailed
    ensures f.Whole? && f.msg.kind.OtherKind? ==> r == Abort
    ensures r.Reacted? && r.reply.Some? ==>
      f.Whole? && f.msg.kind == UmSyscall && r.reply.value.payload == []
      && r.reply.value.(retval := f.msg.retval, args := f.msg.args, payload := f.msg.payload) == f.msg
    ensures r.Reacted? && r.kmem != kmem ==> f.msg.opcode == KopCopyFromUser
  {
    match f
    case ShortHeader => ReadFailed
    case PassedFd(_) => ReadFailed
    case Whole(m) =>
      match m.kind
      case UmSyscall => HandleSyscall(m, strace, hasStatus, kmem, getsockopt, setsockopt)
      case UmKernelOp => (
        match m.opcode
        case KopCopyFromUser =>
          // complete_read of args[2] bytes into args[0]; a short read is fatal
          if |m.payload| < m.args.a2 then Abort
          else Reacted(None, Store(kmem, m.args.a0, m.payload[..m.args.a2]), None)
        case KopCopyToUser => Reacted(None, kmem, None)
        case _ => Abort)
      case OtherKind(_) => Abort
  }

  /** The syscall half of `handle_userspace_message`. With tracing on, an
    * unknown family, option or error code is fatal where it is printed. */
  function HandleSyscall(m: Message, strace: bool, hasStatus: bool, kmem: Memory,
                         getsockopt: Args -> SockoptAnswer, setsockopt: Args -> int): (r: Reaction)
    ensures r.Reacted? ==> r.kmem == kmem
    ensures r.Reacted? && r.reply.Some? ==> r.reply.value == HeaderOnly(m).(retval := r.reply.value.retval, args := r.reply.value.args)
    ensures r != ReadFailed
  {
    match m.opcode
    case SysGetsockopt =>
      if strace && (ProtoFamily(AsInt(m.args.a0)).Barf? || SockoptName(AsInt(m.args.a1), true).Barf?) then Abort
      else
        var answer := getsockopt(m.args);
        if strace && Err(answer.retval).Barf? then Abort
        else
          var args := m.args.(a3 := SetLow32(m.args.a3, answer.optlen));
          Reacted(Some(HeaderOnly(m).(retval := answer.retval, args := args)), kmem, None)
    case SysSetsockopt =>
      if strace && (ProtoFamily(AsInt(m.args.a0)).Barf? || SockoptName(AsInt(m.args.a1), false).Barf?) then Abort
      else
        var ret := setsockopt(m.args);
        if strace && Err(ret).Barf? then Abort
        else Reacted(Some(HeaderOnly(m).(retval := ret)), kmem, None)
    case SysExit =>
      // *status = args[0]; through a NULL status this is a crash
      if hasStatus then Reacted(None, kmem, Some(AsInt(m.args.a0))) else Abort
    case _ => Abort
  }

  /** The handler's promises for the syscall replies: GET and SET write the
    * same header back with the return value set (and, for GET, the option
    * length in the low half of `args[3]`); EXIT stores `args[0]` and sends
    * nothing. */
  lemma HandleSyscallReplies(m: Message, hasStatus: bool, kmem: Memory,
                             getsockopt: Args -> SockoptAnswer, setsockopt: Args -> int)
    requires m.kind == UmSyscall
    ensures m.opcode == SysGetsockopt ==>
      Handle(Whole(m), false, hasStatus, kmem, getsockopt, setsockopt)
      == Reacted(Some(Message(UmSyscall, SysGetsockopt,
                              m.args.(a3 := SetLow32(m.args.a3, getsockopt(m.args).optlen)),
                              m.len, getsockopt(m.args).retval, [])), kmem, None)
    ensures m.opcode == SysSetsockopt ==>
      Handle(Whole(m), false, hasStatus, kmem, getsockopt, setsockopt)
      == Reacted(Some(Message(UmSyscall, SysSetsockopt, m.args, m.len, setsockopt(m.args), [])), kmem, None)
    ensures m.opcode == SysExit ==>
      Handle(Whole(m), false, hasStatus, kmem, getsockopt, setsockopt)
      == (if hasStatus then Reacted(None, kmem, Some(AsInt(m.args.a0))) else Abort)
    ensures m.opcode.KopCopyToUser? || m.opcode.KopCopyFromUser? || m.opcode.KopFork? || m.opcode.OtherOpcode? ==>
      Handle(Whole(m), false, hasStatus, kmem, getsockopt, setsockopt) == Abort
  {
  }

  /** On a COPY_FROM_USER reply exactly `args[2]` payload bytes land at
    * `args[0]`; fewer is fatal. */
  lemma HandleCopyFromUser(m: Message, strace: bool, hasStatus: bool, kmem: Memory,
                           getsockopt: Args -> SockoptAnswer, setsockopt: Args -> int)
    requires m.kind == UmKernelOp && m.opcode == KopCopyFromUser
    ensures var r := Handle(Whole(m), strace, hasStatus, kmem, getsockopt, setsockopt);
      && (|m.payload| < m.args.a2 ==> r == Abort)
      && (|m.payload| >= m.args.a2 ==>
            && r.Reacted? && r.reply == None && r.status == None
            && Mapped(r.kmem, m.args.a0, m.args.a2)
            && Load(r.kmem, m.args.a0, m.args.a2) == m.payload[..m.args.a2])
  {
    if |m.payload| >= m.args.a2 {
      LoadStore(kmem, m.args.a0, m.payload[..m.args.a2]);
    }
  }

  // ------------------------------------------------------------------
  // Requests the simulator sends
  // ------------------------------------------------------------------

  /** The KERNELOP/COPY_TO_USER request of `copy_to_user(to, from, n)`. */
  function ToUserRequest(to: nat, from: nat, n: nat, kmem: Memory): (m: Message)
    requires Mapped(kmem, from, n)
    ensures m.kind == UmKernelOp && m.opcode == KopCopyToUser && m.len == n && m.retval == 0
    ensures m.args == Args(to, from, n, 0) && m.payload == Load(kmem, from, n)
  {
    Message(UmKernelOp, KopCopyToUser, Args(to, from, n, 0), n, 0, Load(kmem, from, n))
  }

  /** The KERNELOP/COPY_FROM_USER request of `copy_from_user(to, from, n)`. */
  function FromUserRequest(to: nat, from: nat, n: nat): (m: Message)
    ensures m.kind == UmKernelOp && m.opcode == KopCopyFromUser && m.len == 0 && m.retval == 0
    ensures m.args == Args(to, from, n, 0) && m.payload == []
  {
    Message(UmKernelOp, KopCopyFromUser, Args(to, from, n, 0), 0, 0, [])
  }

  /** The payload-less KERNELOP/FORK announcement. */
  const ForkAnnouncement: Message := Message(UmKernelOp, KopFork, Args(0, 0, 0, 0), 0, 0, [])

  /** The next frame on the message socket; an empty socket reads short. */
  function NextFrame(incoming: seq<Frame>): Frame
  {
    if incoming == [] then ShortHeader else incoming[0]
  }

  function AfterRead(incoming: seq<Frame>): seq<Frame>
  {
    if incoming == [] then [] else incoming[1..]
  }

  /** What the handler writes back for a reaction, on descriptor `fd`. */
  function Written(fd: int, r: Reaction): seq<Sent>
  {
    if r.Reacted? && r.reply.Some? then [SentMsg(fd, r.reply.value)] else []
  }

  /** `unsigned long n` returned as `int`. */
  function ReturnedCount(n: nat): int { ToInt32(Wrap(n, U32)) }

  /** What one readiness wait reports: which descriptors are readable, an
    * EINTR/EAGAIN interruption, or any other failure. */
  datatype Readiness = Ready(io: bool, msg: bool) | Interrupted | SelectFailed

  /** How `wait_for_output` ends: a chunk of the program's output (with its
    * NUL), both descriptors closed with the final status, a fatal error, or
    * the model's script of readiness results used up while still waiting. */
  datatype Wait = Output(chunk: seq<byte>) | Finished(status: int) | WaitFatal | Blocked

  /** A frame that `handle_userspace_message` reads as a SYS_EXIT report. */
  predicate IsExit(f: Frame)
  {
    f.Whole? && f.msg.kind == UmSyscall && f.msg.opcode == SysExit
  }

  /** `*status` after the frames read so far were handled: each SYS_EXIT
    * report stores its `args[0]`. */
  function StatusAfter(s: int, frames: seq<Frame>): int
    decreases |frames|
  {
    if frames == [] then s
    else if IsExit(frames[|frames| - 1]) then AsInt(frames[|frames| - 1].msg.args.a0)
    else StatusAfter(s, frames[..|frames| - 1])
  }

  /** With no SYS_EXIT report among the frames the status stays as it was. */
  lemma {:induction false} StatusWithoutExit(s: int, frames: seq<Frame>)
    requires forall k :: 0 <= k < |frames| ==> !IsExit(frames[k])
    ensures StatusAfter(s, frames) == s
    decreases |frames|
  {
    if frames != [] {
      var init := frames[..|frames| - 1];
      assert forall k :: 0 <= k < |init| ==> init[k] == frames[k];
      StatusWithoutExit(s, init);
    }
  }

  /** The status is the one the last SYS_EXIT report carried. */
  lemma {:induction false} StatusOfLastExit(s: int, frames: seq<Frame>, k: nat)
    requires k < |frames| && IsExit(frames[k])
    requires forall j :: k < j < |frames| ==> !IsExit(frames[j])
    ensures StatusAfter(s, frames) == AsInt(frames[k].msg.args.a0)
    decreases |frames|
  {
    if k < |frames| - 1 {
      var init := frames[..|frames| - 1];
      assert forall j :: k <= j < |init| ==> init[j] == frames[j];
      StatusOfLastExit(s, init, k);
    }
  }

  /** Handling one more frame with a status: only a SYS_EXIT report sets
    * it, to its `args[0]`. */
  lemma StatusStep(s: int, all: seq<Frame>, k: nat, strace: bool, kmem: Memory,
                   getsockopt: Args -> SockoptAnswer, setsockopt: Args -> int)
    requires k < |all|
    ensures var r := Handle(all[k], strace, true, kmem, getsockopt, setsockopt);
      (r.Reacted? && r.status.Some? <==> IsExit(all[k])) &&
      (IsExit(all[k]) ==> r.Reacted? && r.status == Some(AsInt(all[k].msg.args.a0)))
    ensures StatusAfter(s, all[..k + 1]) ==
      if IsExit(all[k]) then AsInt(all[k].msg.args.a0) else StatusAfter(s, all[..k])
  {
    assert all[..k + 1][..k] == all[..k];
  }

  /** Reading one more frame of the queued ones `all`, of which `incoming`
    * is still unread: the unread frames stay a suffix, and `*status` moves on
    * exactly when the handler reports a status. */
  lemma ReadOneFrame(all: seq<Frame>, incoming: seq<Frame>, s: int, strace: bool, kmem: Memory,
                     getsockopt: Args -> SockoptAnswer, setsockopt: Args -> int)
    requires |incoming| <= |all| && incoming == all[|all| - |incoming|..]
    ensures var r := Handle(NextFrame(incoming), strace, true, kmem, getsockopt, setsockopt);
      var n := |all| - |AfterRead(incoming)|;
      && |AfterRead(incoming)| <= |all| && AfterRead(incoming) == all[n..]
      && StatusAfter(s, all[..n]) ==
           if r.Reacted? && r.status.Some? then r.status.value else StatusAfter(s, all[..|all| - |incoming|])
  {
    var k := |all| - |incoming|;
    if incoming != [] {
      assert incoming[0] == all[k];
      assert AfterRead(incoming) == all[k + 1..];
      StatusStep(s, all, k, strace, kmem, getsockopt, setsockopt);
    }
  }

  /** The status `wait_for_output` reports once both descriptors are closed:
    * the one the child sent, or else what `waitpid` gave, or -1. */
  function FinalStatus(s: int, waited: Option<int>): int
  {
    if s != -1 then s else if waited.Some? then waited.value else -1
  }

  const NO_PID: int := -1
  const CLOSED: int := -1
  /** `talloc_size(NULL, 1024)` less the NUL */
  const CHUNK: nat := 1023

  // ------------------------------------------------------------------
  // The simulator's channel state
  // ------------------------------------------------------------------

  class Channel {
    /** msg_fd, io_fd and pid */
    var msgFd: int
    var ioFd: int
    var pid: int
    /** the global `strace` switch */
    var strace: bool
    /** the caller's `*status` while `wait_for_output` runs */
    var status: int
    /** frames the program has queued on the message socket */
    var incoming: seq<Frame>
    /** bytes the program has written to its output pipe */
    var pipe: seq<byte>
    /** everything written by the simulator, oldest first */
    var sent: seq<Sent>
    /** the simulator's own memory */
    var kmem: Memory
    const getsockopt: Args -> SockoptAnswer
    const setsockopt: Args -> int

    /** The state `start_program` leaves behind. */
    constructor (msg: int, io: int, child: int, trace: bool, frames: seq<Frame>, out: seq<byte>,
                 mem: Memory, onGet: Args -> SockoptAnswer, onSet: Args -> int)
      ensures msgFd == msg && ioFd == io && pid == child && strace == trace && status == -1
      ensures incoming == frames && pipe == out && sent == [] && kmem == mem
      ensures getsockopt == onGet && setsockopt == onSet
    {
      msgFd, ioFd, pid, strace, status := msg, io, child, trace, -1;
      incoming, pipe, sent, kmem := frames, out, [], mem;
      getsockopt, setsockopt := onGet, onSet;
    }

    /** `handle_userspace_message`: read one frame and react to it. */
    method HandleUserspaceMessage(hasStatus: bool) returns (r: Reaction)
      modifies this
      ensures r == Handle(NextFrame(old(incoming)), strace, hasStatus, old(kmem), getsockopt, setsockopt)
      ensures incoming == AfterRead(old(incoming))
      ensures r.Reacted? ==> kmem == r.kmem
      ensures sent == old(sent) + Written(msgFd, r)
      ensures r.Reacted? && r.status.Some? ==> status == r.status.value
      ensures !(r.Reacted? && r.status.Some?) ==> status == old(status)
      ensures !r.Reacted? ==> kmem == old(kmem)
      ensures msgFd == old(msgFd) && ioFd == old(ioFd) && pid == old(pid) && pipe == old(pipe)
      ensures strace == old(strace)
    {
      var f := NextFrame(incoming);
      incoming := AfterRead(incoming);
      r := Handle(f, strace, hasStatus, kmem, getsockopt, setsockopt);
      if r.Reacted? {
        kmem := r.kmem;
        if r.reply.Some? {
          sent := sent + [SentMsg(msgFd, r.reply.value)];
        }
        if r.status.Some? {
          status := r.status.value;
        }
      }
    }

    /** `send_userspace_message`: write the message, then handle one reply
      * with a NULL status. */
    method SendUserspaceMessage(m: Message) returns (r: Reaction)
      modifies this
      ensures sent == old(sent) + [SentMsg(msgFd, m)] + Written(msgFd, r)
      ensures r == Handle(NextFrame(old(incoming)), strace, false, old(kmem), getsockopt, setsockopt)
      ensures incoming == AfterRead(old(incoming))
      ensures r.Reacted? ==> kmem == r.kmem
      ensures !r.Reacted? ==> kmem == old(kmem)
      ensures status == old(status)
      ensures msgFd == old(msgFd) && ioFd == old(ioFd) && pid == old(pid) && pipe == old(pipe)
    {
      sent := sent + [SentMsg(msgFd, m)];
      r := HandleUserspaceMessage(false);
    }

    /** `copy_to_user(to, from, n)`. `fail` is the answer of the failure point
      * named "copy_to_user": then the whole count is returned as not copied
      * and nothing is sent. */
    method CopyToUser(to: nat, from: nat, n: nat, fail: bool) returns (r: Result<int>)
      requires Mapped(kmem, from, n)
      modifies this
      ensures fail ==> r == Ok(ReturnedCount(n)) && sent == old(sent) && incoming == old(incoming) && kmem == old(kmem)
      ensures !fail ==> var h := Handle(NextFrame(old(incoming)), strace, false, old(kmem), getsockopt, setsockopt);
        && sent == old(sent) + [SentMsg(msgFd, ToUserRequest(to, from, n, old(kmem)))] + Written(msgFd, h)
        && r == (if h == Abort then Barf else Ok(0)) && incoming == AfterRead(old(incoming))
        && kmem == (if h.Reacted? then h.kmem else old(kmem))
      ensures status == old(status) && msgFd == old(msgFd) && ioFd == old(ioFd) && pid == old(pid)
    {
      if fail {
        return Ok(ReturnedCount(n));
      }
      var h := SendUserspaceMessage(ToUserRequest(to, from, n, kmem));
      r := if h == Abort then Barf else Ok(0);
    }

    /** `copy_from_user(to, from, n)`: a payload-less request, answered by a
      * reply whose payload the handler stores at `to`. */
    method CopyFromUser(to: nat, from: nat, n: nat, fail: bool) returns (r: Result<int>)
      modifies this
      ensures fail ==> r == Ok(ReturnedCount(n)) && sent == old(sent) && incoming == old(incoming) && kmem == old(kmem)
      ensures !fail ==> var h := Handle(NextFrame(old(incoming)), strace, false, old(kmem), getsockopt, setsockopt);
        && sent == old(sent) + [SentMsg(msgFd, FromUserRequest(to, from, n))] + Written(msgFd, h)
        && r == (if h == Abort then Barf else Ok(0)) && incoming == AfterRead(old(incoming))
        && kmem == (if h.Reacted? then h.kmem else old(kmem))
      ensures status == old(status) && msgFd == old(msgFd) && ioFd == old(ioFd) && pid == old(pid)
    {
      if fail {
        return Ok(ReturnedCount(n));
      }
      var h := SendUserspaceMessage(FromUserRequest(to, from, n));
      r := if h == Abort then Barf else Ok(0);
    }

    /** `fork_other_program`: with a program attached, announce the fork,
      * pass the write end of a new pipe and one end of a new socket pair, and
      * switch to the other ends. `pair` and `pipeEnds` are what `socketpair`
      * and `pipe` return (None when they fail, which is fatal). */
    method ForkOtherProgram(pair: Option<(int, int)>, pipeEnds: Option<(int, int)>) returns (ok: bool)
      modifies this
      ensures old(pid) == NO_PID ==> ok && sent == old(sent) && msgFd == old(msgFd) && ioFd == old(ioFd)
      ensures old(pid) != NO_PID && (pair.None? || pipeEnds.None?) ==> !ok && sent == old(sent)
      ensures old(pid) != NO_PID && pair.Some? && pipeEnds.Some? ==>
        ok && msgFd == pair.value.0 && ioFd == pipeEnds.value.0
        && sent == old(sent) + [SentMsg(old(msgFd), ForkAnnouncement),
                                SentFd(old(msgFd), pipeEnds.value.1), SentFd(old(msgFd), pair.value.1)]
      ensures !ok || old(pid) == NO_PID ==> msgFd == old(msgFd) && ioFd == old(ioFd)
      ensures pid == old(pid) && incoming == old(incoming) && pipe == old(pipe) && kmem == old(kmem) && status == old(status)
    {
      if pid == NO_PID {
        return true;
      }
      if pair.None? || pipeEnds.None? {
        return false;
      }
      sent := sent + [SentMsg(msgFd, ForkAnnouncement)];
      sent := sent + [SentFd(msgFd, pipeEnds.value.1)];
      sent := sent + [SentFd(msgFd, pair.value.1)];
      msgFd := pair.value.0;
      ioFd := pipeEnds.value.0;
      ok := true;
    }

    /** The frames read so far from the queued `all` are a prefix of them,
      * and `*status` is what their SYS_EXIT reports left from `s0`. */
    ghost predicate ReadSoFar(all: seq<Frame>, s0: int)
      reads this
    {
      && |incoming| <= |all| && incoming == all[|all| - |incoming|..]
      && status == StatusAfter(s0, all[..|all| - |incoming|])
    }

    /** What a wait keeps while it runs: the frames read so far, the child,
      * the trace flag, each descriptor either as it was or closed, and the
      * replies sent only added to. */
    ghost predicate Waiting(all: seq<Frame>, s0: int, pid0: int, strace0: bool,
                            msgFd0: int, ioFd0: int, sent0: seq<Sent>)
      reads this
    {
      && ReadSoFar(all, s0) && pid == pid0 && strace == strace0
      && (msgFd == msgFd0 || msgFd == CLOSED) && (ioFd == ioFd0 || ioFd == CLOSED)
      && |sent0| <= |sent| && sent[..|sent0|] == sent0
    }

    /** `wait_for_output`: wait on both descriptors until both are closed,
      * returning early with each chunk of output. `ready` scripts the
      * successive readiness waits; `waited` is the status `waitpid` reports
      * (None when it fails). The frames read are a prefix of the queued ones,
      * and `*status` is what their SYS_EXIT reports left. */
    method WaitForOutput(ready: seq<Readiness>, waited: Option<int>) returns (r: Wait)
      modifies this
      ensures |incoming| <= |old(incoming)| && incoming == old(incoming)[|old(incoming)| - |incoming|..]
      ensures var read := old(incoming)[..|old(incoming)| - |incoming|];
        r.Finished? ==> r.status == status == FinalStatus(StatusAfter(old(status), read), waited)
      ensures var read := old(incoming)[..|old(incoming)| - |incoming|];
        !r.Finished? ==> status == StatusAfter(old(status), read)
      ensures r.Output? ==> 2 <= |r.chunk| <= CHUNK + 1 && r.chunk[|r.chunk| - 1] == 0
      ensures r.Output? ==> old(pipe) == r.chunk[..|r.chunk| - 1] + pipe
      ensures r.Finished? ==> ioFd == CLOSED && msgFd == CLOSED && pid == NO_PID
      ensures !r.Finished? ==> pid == old(pid)
      ensures !r.Output? ==> pipe == old(pipe)
      ensures msgFd == old(msgFd) || msgFd == CLOSED
      ensures ioFd == old(ioFd) || ioFd == CLOSED
      ensures strace == old(strace) && |old(sent)| <= |sent| && sent[..|old(sent)|] == old(sent)
    {
      var stop := WaitLoop(ready);
      if stop.Some? {
        return stop.value;
      }
      if status == -1 {
        status := if waited.Some? then waited.value else -1;
      }
      pid := NO_PID;
      r := Finished(status);
    }

    /** The waiting loop of `wait_for_output`: it stops with a chunk of
      * output, a fatal error or the readiness script used up, or runs until
      * both descriptors are closed. */
    method WaitLoop(ready: seq<Readiness>) returns (stop: Option<Wait>)
      modifies this
      ensures Waiting(old(incoming), old(status), old(pid), old(strace), old(msgFd), old(ioFd), old(sent))
      ensures stop.None? ==> ioFd == CLOSED && msgFd == CLOSED
      ensures stop.Some? ==> !stop.value.Finished?
      ensures stop.Some? && stop.value.Output? ==>
        2 <= |stop.value.chunk| <= CHUNK + 1 && stop.value.chunk[|stop.value.chunk| - 1] == 0 &&
        old(pipe) == stop.value.chunk[..|stop.value.chunk| - 1] + pipe
      ensures !(stop.Some? && stop.value.Output?) ==> pipe == old(pipe)
    {
      ghost var all, s0, sent0 := incoming, status, sent;
      assert all[..0] == [];
      var retry := 0;
      var i := 0;
      stop := None;
      while stop.None? && (ioFd != CLOSED || msgFd != CLOSED)
        invariant 0 <= i <= |ready|
        invariant pipe == old(pipe) || (stop.Some? && stop.value.Output?)
        invariant stop.Some? && stop.value.Output? ==>
          2 <= |stop.value.chunk| <= CHUNK + 1 && stop.value.chunk[|stop.value.chunk| - 1] == 0 &&
          old(pipe) == stop.value.chunk[..|stop.value.chunk| - 1] + pipe
        invariant stop.Some? ==> !stop.value.Finished?
        invariant Waiting(all, s0, old(pid), old(strace), old(msgFd), old(ioFd), sent0)
        decreases |ready| - i, stop.None?
      {
        if i == |ready| {
          stop := Some(Blocked);
        } else {
          var sel := ready[i];
          i := i + 1;
          if sel.SelectFailed? {
            stop := Some(WaitFatal);
          } else if sel.Interrupted? {
            retry := retry + 1;
            if retry >= 3 {
              stop := Some(WaitFatal);
            }
          } else {
            stop := ServeReady(sel.io, sel.msg, all, s0);
          }
        }
      }
    }

    /** One readiness result served: pending output is returned (or, with
      * none left, the output descriptor is closed), then a ready message is
      * handled. */
    method ServeReady(io: bool, msg: bool, ghost all: seq<Frame>, ghost s0: int) returns (stop: Option<Wait>)
      requires ReadSoFar(all, s0)
      modifies this
      ensures Waiting(all, s0, old(pid), old(strace), old(msgFd), old(ioFd), old(sent))
      ensures stop.None? || stop == Some(WaitFatal) || stop.value.Output?
      ensures stop.Some? && stop.value.Output? ==>
        2 <= |stop.value.chunk| <= CHUNK + 1 && stop.value.chunk[|stop.value.chunk| - 1] == 0 &&
        old(pipe) == stop.value.chunk[..|stop.value.chunk| - 1] + pipe
      ensures !(stop.Some? && stop.value.Output?) ==> pipe == old(pipe)
    {
      stop := None;
      if ioFd != CLOSED && io {
        if |pipe| > 0 {
          var chunk := TakeChunk();
          return Some(chunk);
        }
        ioFd := CLOSED;
      }
      if msgFd != CLOSED && msg {
        var fatal := HandleWhileWaiting(all, s0);
        if fatal {
          stop := Some(WaitFatal);
        }
      }
    }

    /** Up to `CHUNK` bytes of pending output, returned with a NUL after them. */
    method TakeChunk() returns (r: Wait)
      requires |pipe| > 0
      modifies this`pipe
      ensures r.Output? && 2 <= |r.chunk| <= CHUNK + 1 && r.chunk[|r.chunk| - 1] == 0
      ensures old(pipe) == r.chunk[..|r.chunk| - 1] + pipe
    {
      var k := if |pipe| < CHUNK then |pipe| else CHUNK;
      r := Output(pipe[..k] + [0]);
      assert r.chunk[..|r.chunk| - 1] == pipe[..k];
      pipe := pipe[k..];
    }

    /** One message read and handled with a status inside the wait; a short
      * read closes the message descriptor. */
    method HandleWhileWaiting(ghost all: seq<Frame>, ghost s0: int) returns (fatal: bool)
      requires ReadSoFar(all, s0) && msgFd != CLOSED
      modifies this
      ensures ReadSoFar(all, s0)
      ensures pipe == old(pipe) && pid == old(pid) && strace == old(strace) && ioFd == old(ioFd)
      ensures msgFd == old(msgFd) || msgFd == CLOSED
      ensures |old(sent)| <= |sent| && sent[..|old(sent)|] == old(sent)
    {
      ReadOneFrame(all, incoming, s0, strace, kmem, getsockopt, setsockopt);
      var h := HandleUserspaceMessage(true);
      fatal := h == Abort;
      if h == ReadFailed {
        msgFd := CLOSED;
      }
    }
  }
}
