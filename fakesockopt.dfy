/**
 * The interposer loaded into the program under test: `socket`, `open`,
 * `fopen` and `close` redirected to the simulator or to the simulated
 * `/proc` tree, and `getsockopt`/`setsockopt` turned into syscall messages,
 * with the simulator's kernel operations served while a reply is awaited.
 * The C library's own functions are parameters.
 */
module Interposer {
  import opened Wrappers
  import opened CInt
  import opened CLib
  import opened Wire

  /** The default of `proc_prefix`. */
  const DEFAULT_PROC_PREFIX: string := "/tmp/nfsim/proc"
  const O_CREAT: bv32 := 0x40

  /** `socket`: the message descriptor for a raw IPv4 socket, otherwise what
    * the real `socket` (here `delegated`) returns. */
  function Socket(sd: int, domain: int, typ: int, protocol: int, delegated: int): (r: int)
    ensures domain == AF_INET && typ == SOCK_RAW && protocol == IPPROTO_RAW ==> r == sd
    ensures !(domain == AF_INET && typ == SOCK_RAW && protocol == IPPROTO_RAW) ==> r == delegated
  {
    if domain == AF_INET && typ == SOCK_RAW && protocol == IPPROTO_RAW then sd else delegated
  }

  /** `file_is_proc`: `strlen >= 6` and `strncmp(p, "/proc/", 6) == 0`. */
  predicate FileIsProc(path: Option<string>)
  {
    path.Some? && |path.value| >= 6 && StrnEq(path.value, "/proc/", 6)
  }

  lemma FileIsProcMeaning(path: Option<string>)
    ensures FileIsProc(path) <==> path.Some? && |path.value| >= 6 && path.value[..6] == "/proc/"
  {
  }

  /** The rewritten path: the prefix, then the name from the `/` after `/proc`. */
  function FakePath(prefix: string, path: string): string
    requires |path| >= 5
  {
    prefix + path[5..]
  }

  /** For a `/proc/` path, the rewritten path keeps the `/` after `proc`, gives
    * the original back when `/proc` replaces the prefix, and fits with its NUL
    * in the `strlen(path) + strlen(prefix)` bytes obtained for it. */
  lemma FakePathProperties(prefix: string, path: string)
    requires FileIsProc(Some(path))
    ensures FakePath(prefix, path) == prefix + "/" + path[6..]
    ensures "/proc" + FakePath(prefix, path)[|prefix|..] == path
    ensures |FakePath(prefix, path)| + 1 <= |path| + |prefix|
  {
    FileIsProcMeaning(Some(path));
    assert path == path[..5] + path[5..];
    assert path[5..] == "/" + path[6..];
  }

  /** `mangle_alloc_proc_path`: `malloc(strlen(path) + strlen(prefix))`, then
    * `strcpy` of the prefix and `strcat` of `path + 5`. `obtained` is the
    * outcome of `malloc`. */
  method MangleAllocProcPath(prefix: string, path: string, obtained: bool) returns (buf: array?<char>)
    requires |path| >= 6 && CString(prefix) && CString(path)
    ensures !obtained ==> buf == null
    ensures obtained ==> buf != null && fresh(buf) && buf.Length == |path| + |prefix|
    ensures obtained ==> var n := |FakePath(prefix, path)|;
      n < buf.Length && buf[..n] == FakePath(prefix, path) && buf[n] == '\0'
  {
    if !obtained {
      return null;
    }
    buf := new char[|path| + |prefix|];
    var i := 0;
    while i < |prefix|
      invariant 0 <= i <= |prefix|
      invariant buf[..i] == prefix[..i]
    {
      buf[i] := prefix[i];
      i := i + 1;
    }
    var j := 5;
    while j < |path|
      invariant 5 <= j <= |path|
      invariant buf[..|prefix| + j - 5] == prefix + path[5..j]
    {
      buf[|prefix| + j - 5] := path[j];
      j := j + 1;
    }
    buf[|prefix| + |path| - 5] := '\0';
    assert buf[..|prefix| + |path| - 5] == prefix + path[5..];
  }

  /** The string held by a NUL-terminated buffer, when the NUL is at `n`. */
  function BufferString(buf: array<char>, n: nat): string
    requires n <= buf.Length
    reads buf
  {
    buf[..n]
  }

  /** `close`: closing the message descriptor does nothing and succeeds. */
  function Close(sd: int, fd: int, delegated: int): (r: int)
    ensures fd == sd ==> r == 0
    ensures fd != sd ==> r == delegated
  {
    if fd == sd then 0 else delegated
  }

  /** The message descriptor never reaches the real `socket`/`close` pair:
    * a raw IPv4 socket is the message descriptor, and closing it returns 0
    * without calling the real `close`. Every other descriptor is the real
    * `socket`'s and is closed by the real `close`. */
  lemma MessageDescriptorStaysLocal(sd: int, realSocket: (int, int, int) -> int, realClose: int -> int,
                                    domain: int, typ: int, protocol: int)
    ensures var fd := Socket(sd, domain, typ, protocol, realSocket(domain, typ, protocol));
      domain == AF_INET && typ == SOCK_RAW && protocol == IPPROTO_RAW ==>
        fd == sd && Close(sd, fd, realClose(fd)) == 0
    ensures var fd := Socket(sd, domain, typ, protocol, realSocket(domain, typ, protocol));
      !(domain == AF_INET && typ == SOCK_RAW && protocol == IPPROTO_RAW) && fd != sd ==>
        fd == realSocket(domain, typ, protocol) && Close(sd, fd, realClose(fd)) == realClose(fd)
  {
  }

  /** A C `FILE *`: None for NULL. */
  type Stream = Option<nat>

  /** The simulator's `SYS_EXIT` report of a child's status. */
  function ExitReport(status: int): (m: Message)
    ensures m.kind == UmSyscall && m.opcode == SysExit && m.args.a0 == Wrap(status, U64)
    ensures m.len == 0 && m.payload == []
  {
    Message(UmSyscall, SysExit, Args(Wrap(status, U64), 0, 0, 0), 0, 0, [])
  }


  // ------------------------------------------------------------------
  // Kernel operations served while a syscall is outstanding
  // ------------------------------------------------------------------

  /** What a kernel copy does on this side: the new memory and the reply, or
    * a crash when `memcpy` would touch bytes that are not there. */
  datatype Served = Served(umem: Memory, reply: Message) | Crashed

  /** `handle_kernelop` for the two copies. COPY_TO_USER copies `args[2]`
    * payload bytes to `args[0]` and answers with its own header and len 0;
    * COPY_FROM_USER answers with the header, then the `args[2]` bytes at
    * `args[1]`, with len `args[2]`. */
  function ServeCopy(umem: Memory, m: Message): (r: Served)
    requires m.opcode == KopCopyToUser || m.opcode == KopCopyFromUser
    ensures r.Crashed? <==> if m.opcode == KopCopyToUser then |m.payload| < m.args.a2 || !Mapped(umem, m.args.a0, m.args.a2)
                            else !Mapped(umem, m.args.a1, m.args.a2)
    ensures r.Served? && m.opcode == KopCopyToUser ==>
      && r.reply == HeaderOnly(m).(len := 0)
      && Mapped(r.umem, m.args.a0, m.args.a2) && Load(r.umem, m.args.a0, m.args.a2) == m.payload[..m.args.a2]
      && r.umem.Keys == umem.Keys
      && forall a :: a in umem && !(m.args.a0 <= a < m.args.a0 + m.args.a2) ==> r.umem[a] == umem[a]
    ensures r.Served? && m.opcode == KopCopyFromUser ==>
      && r.umem == umem && r.reply.len == m.args.a2
      && r.reply.kind == m.kind && r.reply.opcode == m.opcode && r.reply.args == m.args && r.reply.retval == m.retval
      && Mapped(umem, m.args.a1, m.args.a2) && r.reply.payload == Load(umem, m.args.a1, m.args.a2)
  {
    if m.opcode == KopCopyToUser then
      if |m.payload| < m.args.a2 || !Mapped(umem, m.args.a0, m.args.a2) then Crashed
      else
        var data := m.payload[..m.args.a2];
        var u := Store(umem, m.args.a0, data);
        LoadStore(umem, m.args.a0, data);
        assert u.Keys == umem.Keys;
        Served(u, HeaderOnly(m).(len := 0))
    else
      if !Mapped(umem, m.args.a1, m.args.a2) then Crashed
      else Served(umem, m.(len := m.args.a2, payload := Load(umem, m.args.a1, m.args.a2)))
  }

  /** Which process continues after the `fork` in `do_fork`. */
  datatype ForkSide = ForkChild | ForkParent(status: int) | ForkError

  /** The part of the interposer's state its message loop changes: the
    * message descriptor `sd`, the frames still to be read on it, everything
    * written so far, the program's memory, the number of forks done and
    * `errno`. */
  datatype Proc = Proc(sd: int, incoming: seq<Frame>, sent: seq<Sent>, umem: Memory, forks: nat, errno: int)

  /** The process after a step, or `Gone` when it exits. */
  datatype Step = Alive(p: Proc) | Gone

  /** `do_fork`: two descriptors arrive (output, then messages) and the
    * process forks. The child adopts the received message descriptor; the
    * parent, once the child is done, reports its status as a SYS_EXIT message
    * on that descriptor. */
  function Fork(p: Proc, side: ForkSide): (r: Step)
    ensures r.Alive? <==> |p.incoming| >= 2 && p.incoming[0].PassedFd? && p.incoming[1].PassedFd? && !side.ForkError?
    ensures r.Alive? ==>
      && r.p.incoming == p.incoming[2..] && r.p.forks == p.forks + 1
      && r.p.umem == p.umem && r.p.errno == p.errno
    ensures r.Alive? && side.ForkChild? ==> r.p.sd == p.incoming[1].fd && r.p.sent == p.sent
    ensures r.Alive? && side.ForkParent? ==>
      r.p.sd == p.sd && r.p.sent == p.sent + [SentMsg(p.incoming[1].fd, ExitReport(side.status))]
  {
    if |p.incoming| < 2 || !p.incoming[0].PassedFd? || !p.incoming[1].PassedFd? then Gone
    else
      var msgFd := p.incoming[1].fd;
      var q := p.(incoming := p.incoming[2..], forks := p.forks + 1);
      match side
      case ForkChild => Alive(q.(sd := msgFd))
      case ForkParent(status) => Alive(q.(sent := q.sent + [SentMsg(msgFd, ExitReport(status))]))
      case ForkError => Gone
  }

  /** `handle_kernelop` on a state: serve a copy and write its reply on `sd`,
    * fork, or ignore an unknown opcode. A step never reads a frame back and
    * never takes back what was written. */
  function Kernelop(p: Proc, m: Message, side: nat -> ForkSide): (r: Step)
    requires m.kind == UmKernelOp
    ensures (m.opcode == KopCopyToUser || m.opcode == KopCopyFromUser) ==>
      (r.Alive? <==> ServeCopy(p.umem, m).Served?)
      && (r.Alive? ==> r.p == p.(umem := ServeCopy(p.umem, m).umem, sent := p.sent + [SentMsg(p.sd, ServeCopy(p.umem, m).reply)]))
    ensures m.opcode == KopFork ==> r == Fork(p, side(p.forks))
    ensures !(m.opcode == KopCopyToUser || m.opcode == KopCopyFromUser || m.opcode == KopFork) ==> r == Alive(p)
    ensures r.Alive? ==> |r.p.incoming| <= |p.incoming| && |p.sent| <= |r.p.sent| && r.p.sent[..|p.sent|] == p.sent
  {
    if m.opcode == KopCopyToUser || m.opcode == KopCopyFromUser then
      match ServeCopy(p.umem, m)
      case Crashed => Gone
      case Served(u, reply) => Alive(p.(umem := u, sent := p.sent + [SentMsg(p.sd, reply)]))
    else if m.opcode == KopFork then
      Fork(p, side(p.forks))
    else
      Alive(p)
  }

  // ------------------------------------------------------------------
  // fake_syscall
  // ------------------------------------------------------------------

  /** The payload check of `fake_syscall` as written: the count returned by
    * reading the reply's payload is compared with the request's `len`, which
    * `fake_syscall` has set to 0, so no short read is ever caught. */
  predicate PayloadCompleteAsWritten(request: Message, reply: Message)
  {
    |reply.payload| >= request.len
  }

  /** The intended check: the read returned the reply's own `len` bytes. */
  predicate PayloadComplete(reply: Message)
  {
    |reply.payload| >= reply.len
  }

  /** A syscall request as `fake_syscall` sends it: header only, type
    * UM_SYSCALL, len 0, retval 0. */
  function Request(opcode: Opcode, args: Args): (m: Message)
    ensures m.kind == UmSyscall && m.opcode == opcode && m.args == args
    ensures m.len == 0 && m.retval == 0 && m.payload == []
  {
    Message(UmSyscall, opcode, args, 0, 0, [])
  }

  /** A COPY_TO_USER whose header promises four bytes but whose payload read
    * came back empty passes the check as written, and `memcpy` then copies
    * four bytes that were never received; the intended check turns it away. */
  lemma TruncatedPayloadPasses()
    ensures var request := Request(SysGetsockopt, Args(PF_INET as nat, IPT_SO_GET_INFO as nat, 4096, 4));
      var reply := Message(UmKernelOp, KopCopyToUser, Args(4096, 8192, 4, 0), 4, 0, []);
      PayloadCompleteAsWritten(request, reply) && !PayloadComplete(reply)
  {
  }

  /** What waiting for a syscall reply ends in: the reply and the state after
    * it, or the process exiting. */
  datatype Awaited = Replied(reply: Message, p: Proc) | Died

  /** The `while (1)` loop of `fake_syscall`: read frames; a short header, a
    * stray descriptor or a truncated payload ends the process; a syscall
    * reply ends the wait, setting `errno` from a negative retval; a kernel
    * operation is served and the wait goes on; any other kind is skipped. */
  function Await(p: Proc, side: nat -> ForkSide): (r: Awaited)
    decreases |p.incoming|
  {
    if p.incoming == [] || !p.incoming[0].Whole? then Died
    else
      var m := p.incoming[0].msg;
      var q := p.(incoming := p.incoming[1..]);
      if !PayloadComplete(m) then Died
      else if m.kind == UmSyscall then
        Replied(m, q.(errno := if m.retval < 0 then -m.retval else q.errno))
      else if m.kind == UmKernelOp then
        match Kernelop(q, m, side)
        case Gone => Died
        case Alive(q2) => Await(q2, side)
      else
        Await(q, side)
  }

  /** `frames[k]` is the first syscall reply; nothing before it is one. */
  predicate FirstSyscallReply(frames: seq<Frame>, k: nat)
  {
    && k < |frames| && frames[k].Whole? && frames[k].msg.kind == UmSyscall
    && forall j :: 0 <= j < k ==> !(frames[j].Whole? && frames[j].msg.kind == UmSyscall)
  }

  /** One turn of the wait that does not end it: some frames are read, none
    * a syscall reply, and what was written is kept. */
  lemma AwaitTurn(p: Proc, side: nat -> ForkSide) returns (q: Proc, d: nat)
    requires Await(p, side).Replied?
    requires !(p.incoming[0].Whole? && p.incoming[0].msg.kind == UmSyscall)
    ensures 1 <= d <= |p.incoming| && q.incoming == p.incoming[d..]
    ensures forall j :: 0 <= j < d ==> !(p.incoming[j].Whole? && p.incoming[j].msg.kind == UmSyscall)
    ensures |p.sent| <= |q.sent| && q.sent[..|p.sent|] == p.sent
    ensures Await(q, side) == Await(p, side)
  {
    var m := p.incoming[0].msg;
    var q1 := p.(incoming := p.incoming[1..]);
    if m.kind == UmKernelOp {
      q := Kernelop(q1, m, side).p;
      if m.opcode == KopFork {
        d := 3;
      } else {
        d := 1;
      }
    } else {
      q, d := q1, 1;
    }
  }

  /** The wait ends on the first syscall reply among the frames, having read
    * exactly the frames up to it; what was written before is kept; a negative
    * retval leaves its negation in `errno`. */
  lemma {:induction false} AwaitFirstReply(p: Proc, side: nat -> ForkSide)
    ensures var r := Await(p, side);
      r.Replied? ==>
        && (exists k: nat :: FirstSyscallReply(p.incoming, k) && r.reply == p.incoming[k].msg && r.p.incoming == p.incoming[k + 1..])
        && |p.sent| <= |r.p.sent| && r.p.sent[..|p.sent|] == p.sent
        && (r.reply.retval < 0 ==> r.p.errno == -r.reply.retval)
        && PayloadComplete(r.reply)
    decreases |p.incoming|
  {
    var r := Await(p, side);
    if r.Replied? {
      if p.incoming[0].Whole? && p.incoming[0].msg.kind == UmSyscall {
        assert FirstSyscallReply(p.incoming, 0);
      } else {
        var q, d := AwaitTurn(p, side);
        AwaitFirstReply(q, side);
        var k: nat :| FirstSyscallReply(q.incoming, k) && r.reply == q.incoming[k].msg && r.p.incoming == q.incoming[k + 1..];
        ShiftFirstReply(p.incoming, d, k);
        assert r.p.incoming == p.incoming[d + k + 1..];
        PrefixTrans(p.sent, q.sent, r.p.sent);
      }
    }
  }

  lemma ShiftFirstReply(frames: seq<Frame>, d: nat, k: nat)
    requires d <= |frames| && FirstSyscallReply(frames[d..], k)
    requires forall j :: 0 <= j < d ==> !(frames[j].Whole? && frames[j].msg.kind == UmSyscall)
    ensures FirstSyscallReply(frames, d + k)
  {
    assert frames[d + k] == frames[d..][k];
    forall j | d <= j < d + k
      ensures !(frames[j].Whole? && frames[j].msg.kind == UmSyscall)
    {
      assert frames[j] == frames[d..][j - d];
    }
  }

  lemma PrefixTrans<T>(a: seq<T>, b: seq<T>, c: seq<T>)
    requires |a| <= |b| && b[..|a|] == a && |b| <= |c| && c[..|b|] == b
    ensures c[..|a|] == a
  {
    assert c[..|a|] == c[..|b|][..|a|];
  }

  /** The C value `fake_syscall` returns for a reply: its retval, or -1 for a
    * negative one. */
  function SyscallReturn(retval: int): (ret: int)
    ensures retval >= 0 ==> ret == retval
    ensures retval < 0 ==> ret == -1
  {
    if retval < 0 then -1 else retval
  }

  /** The state once the request has been written on `sd`. */
  function Sending(p: Proc, opcode: Opcode, args: Args): (q: Proc)
    ensures q == p.(sent := p.sent + [SentMsg(p.sd, Request(opcode, args))])
  {
    p.(sent := p.sent + [SentMsg(p.sd, Request(opcode, args))])
  }

  /** How an intercepted call ends: its C return value and the option length
    * handed back, or the process exiting. */
  datatype Syscall = Completed(ret: int, optlen: nat) | Exited

  // ------------------------------------------------------------------
  // The interposer's process state
  // ------------------------------------------------------------------

  class Peer {
    /** `sd`, the message descriptor */
    var sd: int
    /** `proc_prefix`, from NFSIM_PROC_PREFIX or the default */
    var procPrefix: string
    var errno: int
    /** the frames this process will read from its message descriptor */
    var incoming: seq<Frame>
    /** everything this process wrote, oldest first */
    var sent: seq<Sent>
    /** the program's memory */
    var umem: Memory
    /** how many forks it has performed */
    var forks: nat
    /** which side of its `n`th fork this process continues on */
    const forkSide: nat -> ForkSide

    function State(): Proc
      reads this
    {
      Proc(sd, incoming, sent, umem, forks, errno)
    }

    /** The state `_init` leaves behind. */
    constructor (fd: int, prefix: Option<string>, frames: seq<Frame>, mem: Memory, side: nat -> ForkSide)
      ensures State() == Proc(fd, frames, [], mem, 0, 0) && forkSide == side
      ensures procPrefix == (if prefix.Some? then prefix.value else DEFAULT_PROC_PREFIX)
    {
      sd := fd;
      procPrefix := if prefix.Some? then prefix.value else DEFAULT_PROC_PREFIX;
      errno, incoming, sent, umem, forks, forkSide := 0, frames, [], mem, 0, side;
    }

    /** `open`: a path outside `/proc/` goes to the real `open` unchanged; a
      * `/proc/` path goes there rewritten, and a failed allocation returns
      * -ENOMEM. The mode is passed on only with O_CREAT. */
    method Open(path: Option<string>, flags: bv32, mode: int, obtained: bool,
                realOpen: (Option<string>, bv32, int) -> int) returns (ret: int)
      requires path.Some? ==> CString(path.value)
      requires CString(procPrefix)
      ensures var m := if flags & O_CREAT != 0 then mode else 0;
        && (!FileIsProc(path) ==> ret == realOpen(path, flags, m))
        && (FileIsProc(path) && !obtained ==> ret == -ENOMEM)
        && (FileIsProc(path) && obtained ==> ret == realOpen(Some(FakePath(procPrefix, path.value)), flags, m))
    {
      var m := if flags & O_CREAT != 0 then mode else 0;
      if !FileIsProc(path) {
        ret := realOpen(path, flags, m);
      } else {
        FileIsProcMeaning(path);
        var fake := MangleAllocProcPath(procPrefix, path.value, obtained);
        if fake == null {
          ret := -ENOMEM;
        } else {
          ret := realOpen(Some(BufferString(fake, |FakePath(procPrefix, path.value)|)), flags, m);
        }
      }
    }

    /** `fopen`: the same redirection; a failed allocation returns NULL and
      * sets `errno` to -ENOMEM (negative, as written). */
    method Fopen(path: Option<string>, mode: string, obtained: bool,
                 realFopen: (Option<string>, string) -> Stream) returns (ret: Stream)
      requires path.Some? ==> CString(path.value)
      requires CString(procPrefix)
      modifies this
      ensures !FileIsProc(path) ==> ret == realFopen(path, mode) && State() == old(State())
      ensures FileIsProc(path) && !obtained ==> ret == None && State() == old(State()).(errno := -ENOMEM)
      ensures FileIsProc(path) && obtained ==>
        ret == realFopen(Some(FakePath(procPrefix, path.value)), mode) && State() == old(State())
      ensures procPrefix == old(procPrefix)
    {
      if !FileIsProc(path) {
        ret := realFopen(path, mode);
      } else {
        FileIsProcMeaning(path);
        var fake := MangleAllocProcPath(procPrefix, path.value, obtained);
        if fake == null {
          errno := -ENOMEM;
          return None;
        }
        ret := realFopen(Some(BufferString(fake, |FakePath(procPrefix, path.value)|)), mode);
      }
    }

    /** `do_fork` on the process. False when it exits. */
    method DoFork() returns (alive: bool)
      modifies this
      ensures var r := Fork(old(State()), forkSide(old(forks)));
        alive == r.Alive? && (alive ==> State() == r.p)
      ensures procPrefix == old(procPrefix)
    {
      if |incoming| < 2 || !incoming[0].PassedFd? || !incoming[1].PassedFd? {
        return false;
      }
      var msgFd := incoming[1].fd;
      incoming := incoming[2..];
      var side := forkSide(forks);
      forks := forks + 1;
      match side {
        case ForkChild =>
          sd := msgFd;
          alive := true;
        case ForkParent(status) =>
          sent := sent + [SentMsg(msgFd, ExitReport(status))];
          alive := true;
        case ForkError =>
          alive := false;
      }
    }

    /** `handle_kernelop` on the process. False when it exits. */
    method HandleKernelop(m: Message) returns (alive: bool)
      requires m.kind == UmKernelOp
      modifies this
      ensures var r := Kernelop(old(State()), m, forkSide);
        alive == r.Alive? && (alive ==> State() == r.p)
      ensures procPrefix == old(procPrefix)
    {
      if m.opcode == KopCopyToUser || m.opcode == KopCopyFromUser {
        var s := ServeCopy(umem, m);
        if s.Crashed? {
          return false;
        }
        umem := s.umem;
        sent := sent + [SentMsg(sd, s.reply)];
        return true;
      }
      if m.opcode == KopFork {
        alive := DoFork();
        return;
      }
      alive := true;
    }

    /** `fake_syscall`: write the request, then read and serve frames until
      * the syscall reply. */
    method FakeSyscall(opcode: Opcode, args: Args) returns (r: Awaited)
      modifies this
      ensures r == Await(Sending(old(State()), opcode, args), forkSide)
      ensures r.Replied? ==> State() == r.p
      ensures procPrefix == old(procPrefix)
    {
      sent := sent + [SentMsg(sd, Request(opcode, args))];
      ghost var start := State();
      while true
        invariant Await(State(), forkSide) == Await(start, forkSide)
        invariant procPrefix == old(procPrefix)
        decreases |incoming|
      {
        if incoming == [] || !incoming[0].Whole? {
          return Died;
        }
        var m := incoming[0].msg;
        incoming := incoming[1..];
        if !PayloadComplete(m) {
          return Died;
        }
        if m.kind == UmSyscall {
          errno := if m.retval < 0 then -m.retval else errno;
          return Replied(m, State());
        }
        if m.kind == UmKernelOp {
          var alive := HandleKernelop(m);
          if !alive {
            return Died;
          }
        }
      }
    }

    /** `getsockopt`: whatever the descriptor and level, send PF_INET, the
      * option name, the buffer and the length; `*optlen` gets back the length
      * that was sent. */
    method Getsockopt(s: int, level: int, optname: int, optval: nat, optlen: nat) returns (r: Syscall)
      requires optlen < U32
      modifies this
      ensures var a := Await(Sending(old(State()), SysGetsockopt, Args(PF_INET as nat, Wrap(optname, U64), optval, optlen)), forkSide);
        && (a.Replied? ==> r == Completed(SyscallReturn(a.reply.retval), optlen) && State() == a.p)
        && (a.Died? ==> r == Exited)
      ensures procPrefix == old(procPrefix)
    {
      var a := FakeSyscall(SysGetsockopt, Args(PF_INET as nat, Wrap(optname, U64), optval, optlen));
      if a.Died? {
        return Exited;
      }
      r := Completed(SyscallReturn(a.reply.retval), optlen);
    }

    /** `setsockopt`: the same request with SYS_SETSOCKOPT. */
    method Setsockopt(s: int, level: int, optname: int, optval: nat, optlen: nat) returns (r: Syscall)
      requires optlen < U32
      modifies this
      ensures var a := Await(Sending(old(State()), SysSetsockopt, Args(PF_INET as nat, Wrap(optname, U64), optval, optlen)), forkSide);
        && (a.Replied? ==> r == Completed(SyscallReturn(a.reply.retval), optlen) && State() == a.p)
        && (a.Died? ==> r == Exited)
      ensures procPrefix == old(procPrefix)
    {
      var a := FakeSyscall(SysSetsockopt, Args(PF_INET as nat, Wrap(optname, U64), optval, optlen));
      if a.Died? {
        return Exited;
      }
      r := Completed(SyscallReturn(a.reply.retval), optlen);
    }
  }
}
