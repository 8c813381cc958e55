/**
 * The message format shared by the simulator and the interposed program,
 * the memory both sides copy to and from, and the errno and iptables
 * constants they exchange.
 */
module Wire {
  import opened Wrappers
  import opened CInt

  newtype byte = x: int | 0 <= x < 256

  /** The message kinds; a code that is neither is carried as `OtherKind`. */
  datatype Kind = UmSyscall | UmKernelOp | OtherKind(code: int)

  /** Opcodes, told apart by name; their numeric values are those of the
    * shared header, which is not part of this model. */
  datatype Opcode =
    | SysGetsockopt | SysSetsockopt | SysExit
    | KopCopyToUser | KopCopyFromUser | KopFork
    | OtherOpcode(code: int)

  /** The four `unsigned long` operands. */
  datatype Args = Args(a0: nat, a1: nat, a2: nat, a3: nat)

  predicate ArgsFit(a: Args) { a.a0 < U64 && a.a1 < U64 && a.a2 < U64 && a.a3 < U64 }

  /** `struct nf_userspace_message` together with the payload bytes that follow
    * it on the channel; `len` is the header field, which need not agree with
    * the number of bytes that actually follow. */
  datatype Message = Message(kind: Kind, opcode: Opcode, args: Args, len: nat, retval: int, payload: seq<byte>)

  /** What one read of the message socket yields: a whole header with the
    * bytes after it, fewer bytes than a header (the peer closed or failed),
    * or a descriptor passed alongside a one-byte message. */
  datatype Frame = Whole(msg: Message) | ShortHeader | PassedFd(fd: int)

  /** What a process writes: a message, or a descriptor passed on `fd`. */
  datatype Sent = SentMsg(fd: int, msg: Message) | SentFd(fd: int, passed: int)

  /** The header alone, as `write(fd, &msg, sizeof(msg))` sends it. */
  function HeaderOnly(m: Message): (r: Message)
    ensures r.payload == [] && r.kind == m.kind && r.opcode == m.opcode
    ensures r.args == m.args && r.len == m.len && r.retval == m.retval
  {
    m.(payload := [])
  }

  // ------------------------------------------------------------------
  // Memory
  // ------------------------------------------------------------------

  /** A process's memory: the bytes at the addresses it may touch. */
  type Memory = map<nat, byte>

  predicate Mapped(mem: Memory, addr: nat, n: nat)
  {
    forall i :: addr <= i < addr + n ==> i in mem
  }

  /** The `n` bytes at `addr` (a `memcpy` source). */
  function Load(mem: Memory, addr: nat, n: nat): (r: seq<byte>)
    requires Mapped(mem, addr, n)
    ensures |r| == n && forall i :: 0 <= i < n ==> r[i] == mem[addr + i]
    decreases n
  {
    if n == 0 then [] else [mem[addr]] + Load(mem, addr + 1, n - 1)
  }

  /** `data` written at `addr` (a `memcpy` destination); every other address
    * keeps its byte. */
  function Store(mem: Memory, addr: nat, data: seq<byte>): (r: Memory)
    ensures Mapped(r, addr, |data|)
    ensures forall i :: 0 <= i < |data| ==> r[addr + i] == data[i]
    ensures forall a :: a in mem && !(addr <= a < addr + |data|) ==> a in r && r[a] == mem[a]
    ensures forall a :: a in r ==> a in mem || addr <= a < addr + |data|
    decreases |data|
  {
    if data == [] then mem
    else
      Store(mem, addr + 1, data[1..])[addr := data[0]]
  }

  /** What is stored is what is loaded back. */
  lemma LoadStore(mem: Memory, addr: nat, data: seq<byte>)
    ensures Mapped(Store(mem, addr, data), addr, |data|)
    ensures Load(Store(mem, addr, data), addr, |data|) == data
  {
  }

  // ------------------------------------------------------------------
  // Constants
  // ------------------------------------------------------------------

  const PF_INET: int := 2
  const AF_INET: int := 2
  const SOCK_RAW: int := 3
  const IPPROTO_RAW: int := 255

  /** iptables socket options (`IPT_BASE_CTL` is 64). */
  const IPT_SO_SET_REPLACE: int := 64
  const IPT_SO_SET_ADD_COUNTERS: int := 65
  const IPT_SO_GET_INFO: int := 64
  const IPT_SO_GET_ENTRIES: int := 65

  const EPERM: int := 1
  const ENOENT: int := 2
  const EINTR: int := 4
  const ENOMEM: int := 12
  const EACCES: int := 13
  const EFAULT: int := 14
  const ENOTDIR: int := 20
  const EINVAL: int := 22
}
