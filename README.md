# nfsim core, modelled and proved in Dafny

nfsim runs the Linux netfilter code in userspace. A script of commands
drives it: `gen_ip` builds and injects IPv4 packets, `expect` checks what
comes out, and other commands set up interfaces, routes, modules, queued
packets, hooks and the simulated clock. The program under test, such as
`iptables`, talks to the simulator through an interposed library: every
`getsockopt`/`setsockopt` becomes a message on a socket, and the simulator
answers with copies to and from the program's memory. A fault-injection
controller can fail every allocation or registration point in turn. With
`--failtest` it forks at each point. A failure path it prints can be
replayed with `--failpath`.

This project models that core, one Dafny module per source file:

| module | file | what it holds |
|---|---|---|
| `FailTest` | `failtest.dfy` | the controller: the ledger, `failpath_string`, the replay scanner `do_failpath`, `should_i_fail` and `should_i_fail_once`, with the fork as a parameter |
| `Wire`, `Bridge`, `Interposer`, `CopyFidelity` | `wire.dfy`, `bridge.dfy`, `fakesockopt.dfy`, `copyfidelity.dfy` | the messages, the simulator's end of the bridge, the interposer loaded into the program, and the two ends of a copy put together |
| `ProcFs`, `ProcTable`, `Sysctl` | `procfs.dfy`, `proctable.dfy`, `sysctl.dfy` | the simulated `/proc` tree, the registering of sysctl tables into it (`register_proc_table`, `register_sysctl_table` and their inverses), and the sysctl permission, dispatch and integer-vector handlers |
| `KernelEnv` | `kernelenv.dfy` | the arithmetic helpers of the simulated kernel environment |
| `GenIp`, `GenPacket` | `genip.dfy`, `genpacket.dfy` | the argument parsers of `gen_ip`, and the packet they describe |
| `NetMask`, `Route`, `IfConfig` | `netmask.dfy`, `route.dfy`, `ifconfig.dfy` | netmasks, the routing table and `route`, and the interfaces and `ifconfig` |
| `TcpSession` | `tcpsession.dfy` | the `tcpsession` command's sequence and acknowledgement bookkeeping |
| `Modules`, `Fields`, `Core`, `Queue` | `modules.dfy`, `fields.dfy`, `core.dfy`, `queue.dfy` | module use counts and loading, the field association list, verdict names, the option table, the registration wrappers, `nf_send`, and the userspace queue |
| `TimeCmd`, `Hook`, `Strace` | `timecmd.dfy`, `hook.dfy`, `strace.dfy` | the `time`, `hook` and `strace` commands |
| `Wrappers`, `CInt`, `CLib` | `wrappers.dfy`, `clib.dfy` | `Option`/`Result`, the C integer widths with explicit wrap-around, and the C library functions the parsers use (`strtoul`, `strtol`, `atoi`, `%u`/`%d` printing, `strstr`, `strchr`) |

The model follows the form of the code. Pure lookups and parsers are
functions. Loops are methods with `while` loops and invariants, each proved
equal to a specification function. Global lists and counters are fields of
a class whose methods update them. C integers are unbounded `int`s below
their modulus, with the wrap-around written out. Outside collaborators are
parameters of the operation that calls them: `dlopen` and a module's init,
`__nf_register_hook`, `inet_atou32`, the readiness that `select` reports,
the command dispatcher `tui_do_command`, and the side of a `fork`.
`barf`, which ends the program, is a `Barf` or `Fatal` outcome.

The model follows the code. Where the comments or the help text and the
code disagree, the code wins. For example, the help text of `hook` lists
`STOLEN` and `REPEAT`, but the code accepts only `DROP`, `ACCEPT` and
`QUEUE`. The listing form of `queue` returns 0, which is false. A
`hook_post_cleanup` after any command other than `gen_ip` does nothing.

The exception is code that is evidently wrong: an off-by-one, a check
against the wrong value, or undefined behaviour. Each such case is a row of
"## Findings". There the behaviour as written is a member of its own, with
a lemma showing an input it gets wrong. The operations of the model use
the corrected definition instead. "## Left out" names each operation that
computes the corrected behaviour, and which correction it uses.

## Model

| member | source | states |
|---|---|---|
| `CInt.Wrap` | core/message.c:305-307 | a conversion to an unsigned type yields a value below its modulus, and leaves a value that already fits unchanged |
| `CInt.ToInt32` | core/message.c:226-228 | a 32-bit pattern read as two's complement lies in `int` range and converts back to the same pattern |
| `CInt.ToInt64` | kernelenv/include/kernelenv.h:296-299 | the `(long)` cast in `time_after`: a 64-bit pattern read as two's complement, in `long` range, whose unsigned conversion gives the pattern back |
| `Wire.LoadStore` | core/message.c:316 | bytes stored by a `memcpy` at an address are what a later read of that range loads, and they are all mapped |
| `Bridge.ProtoFamily` | core/message.c:124-131 | only `PF_INET` has a name; any other family is fatal |
| `Bridge.SockoptName` | core/message.c:133-150 | the four get options and the two set options have their names; every other option is fatal |
| `Bridge.Err` | core/message.c:152-202 | a non-negative code prints as its decimal text, a known negative errno as `-NAME`, any other negative code is fatal |
| `Bridge.AsInt` | core/message.c:244-246 | an `unsigned long` operand passed as `int` keeps its low 32 bits and lies in `int` range |
| `Bridge.SetLow32` | core/message.c:226-228 | writing an `int` through `(int *)&args[3]` replaces the low 32 bits and keeps the high ones |
| `Bridge.Handle` | core/message.c:204-277 | a short read ends the channel; an unknown type or opcode is fatal; each known message gets the reaction of its case |
| `Bridge.StatusStep` | core/message.c:252-254 | handling a frame with a status sets it exactly when the frame is a SYS_EXIT report, to its first operand as an `int`; every other frame leaves it as it was |
| `Bridge.StatusOfLastExit` | core/message.c:252-254 | after a run of frames the status is the first operand of the last SYS_EXIT report among them |
| `Bridge.StatusWithoutExit` | core/message.c:252-254 | a run of frames without a SYS_EXIT report leaves the status as it was |
| `Bridge.HandleSyscall` | core/message.c:214-257 | the reply carries the kernel's return value; with tracing on an unknown family, option or error code is fatal |
| `Bridge.HandleSyscallReplies` | core/message.c:214-257 | GET and SET write the same header back with `retval` set (GET also writes the option length into the low half of `args[3]`); EXIT stores `args[0]` as the status and sends nothing |
| `Bridge.HandleCopyFromUser` | core/message.c:261-265 | on a COPY_FROM_USER reply exactly `args[2]` payload bytes land at `args[0]`; a shorter payload is fatal |
| `Bridge.ToUserRequest` | core/message.c:299-316 | the request is a KERNELOP/COPY_TO_USER header with `to`, `from`, `n`, `len == n`, and the `n` kernel bytes as payload |
| `Bridge.FromUserRequest` | core/message.c:336-347 | the request is a payload-less KERNELOP/COPY_FROM_USER header with `to`, `from` and `n` |
| `Bridge.Channel.constructor` | core/message.c:86-122 | the simulator keeps the read ends of the new pipe and socket pair, and the child's pid is recorded |
| `Bridge.Channel.HandleUserspaceMessage` | core/message.c:204-277 | reading one frame and reacting to it gives the outcome and new state `Handle` describes |
| `Bridge.Channel.SendUserspaceMessage` | core/message.c:279-285 | the whole message is written, then exactly one reply is handled with a NULL status |
| `Bridge.Channel.CopyToUser` | core/message.c:287-322 | an injected failure returns `n` and sends nothing; otherwise the request is sent, its one reply handled, and 0 returned |
| `Bridge.Channel.CopyFromUser` | core/message.c:324-356 | the payload-less request is sent and the reply's bytes are stored at `to`; 0 is returned, or `n` on an injected failure |
| `Bridge.Channel.ForkOtherProgram` | core/message.c:359-393 | with no program attached nothing happens; otherwise the fork message and two descriptors are sent and the channel switches to the new ends; a failing `socketpair` or `pipe` is fatal |
| `Bridge.Channel.WaitForOutput` | core/message.c:396-446 | the frames it reads are a prefix of those queued, and `*status` is what the last SYS_EXIT among them reported, or the old status without one; it returns the first chunk of output (at most 1023 bytes, NUL-terminated, taken off the front of the pipe) or, once both descriptors are closed, the status the child sent, else the one `waitpid` gave, else -1, and clears the pid; it only closes descriptors and only adds replies after the earlier ones |
| `CopyFidelity.CopyRoundTrip` | core/message.c:287-356 | a `copy_to_user` then `copy_from_user` of the same bytes through the interposed program brings back exactly the kernel bytes that were sent |
| `KernelEnv.Swab16` | kernelenv/include/kernelenv.h:70-73 | the two bytes of a 16-bit value trade places |
| `KernelEnv.Swab32` | kernelenv/include/kernelenv.h:74-79 | byte `k` of the result is byte `3 - k` of the argument |
| `KernelEnv.Swab64` | kernelenv/include/kernelenv.h:80-89 | byte `k` of the result is byte `7 - k` of the argument |
| `KernelEnv.Swab32Reverses` | kernelenv/include/kernelenv.h:74-79 | the byte sequence of `swab32(x)` is that of `x` reversed |
| `KernelEnv.Swab64Reverses` | kernelenv/include/kernelenv.h:80-89 | the byte sequence of `swab64(x)` is that of `x` reversed |
| `KernelEnv.SwabTwice` | kernelenv/include/kernelenv.h:70-89 | swapping twice gives the value back, for all three widths |
| `KernelEnv.Min` | kernelenv/include/kernelenv.h:123-127 | the result is one of the operands and no larger than either |
| `KernelEnv.Max` | kernelenv/include/kernelenv.h:129-133 | the result is one of the operands and no smaller than either |
| `KernelEnv.MinT` | kernelenv/include/kernelenv.h:141-142 | the smaller of the two operands after their conversion to the named type |
| `KernelEnv.MaxT` | kernelenv/include/kernelenv.h:143-144 | the larger of the two operands after their conversion to the named type |
| `KernelEnv.AlignIsLeastMultiple` | kernelenv/include/kernelenv.h:275 | unless `x + a - 1` wraps, `ALIGN(x, a)` for a power of two `a` is the least multiple of `a` not below `x` |
| `KernelEnv.NlmsgAlign` | kernelenv/include/kernelenv.h:1446-1447 | `NLMSG_ALIGN(len)` is the least multiple of 4 not below `len` |
| `KernelEnv.TimeAfterDistance` | kernelenv/include/kernelenv.h:296-306 | `time_after(a, b)` holds exactly when `a` is at least one and at most half the counter range ahead of `b`; `time_after_eq` when it is less than half ahead |
| `KernelEnv.TimeOrder` | kernelenv/include/kernelenv.h:296-306 | `time_after_eq` is reflexive, `time_after` irreflexive and asymmetric away from the half-range point, and it implies `time_after_eq` there |
| `KernelEnv.JiffiesToMsecs` | kernelenv/include/kernelenv.h:253-256 | the result fits an `unsigned int` and is `10 * j` (reduced) whenever `j * 1000` does not wrap |
| `KernelEnv.CutoffValue` | kernelenv/include/kernelenv.h:252-260 | `jiffies_to_msecs(MAX_JIFFY_OFFSET)`, the saturation threshold, is 4123168584 once `j * 1000` wraps in `unsigned long` |
| `KernelEnv.MsecsToJiffiesWraps` | kernelenv/include/kernelenv.h:258-263 | as written, `msecs_to_jiffies(50000000)` is 705033 because `m * HZ + 999` wraps in `unsigned int`; the corrected version gives 5000000 |
| `KernelEnv.MsecsToJiffies` | kernelenv/include/kernelenv.h:258-263 | (corrected rounding) above `jiffies_to_msecs(MAX_JIFFY_OFFSET)` the result saturates at `MAX_JIFFY_OFFSET`, as the code does; below it the result is `m * HZ / 1000` rounded up |
| `KernelEnv.MsecsToJiffiesSaturate` | kernelenv/include/kernelenv.h:260-261 | above the saturation threshold the code as written and the corrected version both give `MAX_JIFFY_OFFSET` |
| `KernelEnv.MsecsToJiffiesAgree` | kernelenv/include/kernelenv.h:258-263 | wherever `m * HZ + 999` fits in 32 bits the code as written and the corrected version agree |
| `KernelEnv.Fls` | kernelenv/include/kernelenv.h:1345-1372 | 0 for 0; otherwise the 1-based index of the highest set bit |
| `KernelEnv.DoDiv` | kernelenv/include/kernelenv.h:1377-1383 | `n` becomes the quotient and the remainder is returned: `quotient * base + remainder == n` with `remainder < base` |
| `KernelEnv.NfQueueNr` | kernelenv/include/kernelenv.h:980 | the queue number's low 16 bits go to the upper half and `NF_QUEUE` to the lower half |
| `KernelEnv.Xchg` | kernelenv/include/kernelenv.h:108 | the word holds `v` afterwards and the previous contents are returned |
| `KernelEnv.Kzalloc` | kernelenv/include/kernelenv.h:172-180 | a failed allocation returns NULL; a block obtained comes back with every byte zero |
| `Interposer.MessageDescriptorStaysLocal` | core/fakesockopt.c:338-439 | a raw IPv4 socket request returns the message descriptor, and closing that descriptor returns 0 without reaching the real `close`; any other request returns the real `socket`'s descriptor, which the real `close` closes |
| `Interposer.FileIsProcMeaning` | core/fakesockopt.c:353-360 | a path is redirected exactly when it is non-NULL, at least six characters long and starts with `/proc/` |
| `Interposer.FakePathProperties` | core/fakesockopt.c:362-373 | the rewritten path is the prefix followed by the path from its fifth character on: it keeps the `/` after `proc`, gives the original back when the prefix is `/proc`, and fits with its NUL in the bytes obtained for it |
| `Interposer.MangleAllocProcPath` | core/fakesockopt.c:362-373 | a failed `malloc` gives NULL; otherwise the rewritten path |
| `Interposer.ServeCopy` | core/fakesockopt.c:202-243 | COPY_TO_USER stores `args[2]` payload bytes at `args[0]` and answers with its own header and len 0; COPY_FROM_USER answers with the header followed by the `args[2]` bytes at `args[1]`, with len `args[2]`; memory is otherwise unchanged |
| `Interposer.Fork` | core/fakesockopt.c:159-200 | two descriptors are received, output first; the child adopts the second as its message descriptor and writes nothing; the parent keeps its own descriptor, writes the child's status on the received one as a header-only SYS_EXIT message with the status as its first operand, and goes back to its caller's wait; a missing descriptor or a failed `fork` ends the process |
| `Interposer.Kernelop` | core/fakesockopt.c:202-243 | a step serves a copy and writes its reply, forks, or ignores an unknown opcode; it never takes back what was written |
| `Interposer.TruncatedPayloadPasses` | core/fakesockopt.c:274-277 | a COPY_TO_USER header promising four bytes with an empty payload passes the check as written, and is refused by the corrected check |
| `Interposer.AwaitTurn` | core/fakesockopt.c:265-298 | one turn that does not end the wait reads frames, none of them a syscall reply, and keeps what was written before |
| `Interposer.AwaitFirstReply` | core/fakesockopt.c:265-298 | the wait ends on the first syscall reply, having read exactly the frames up to it; a negative retval leaves its negation in `errno` |
| `Interposer.Peer.constructor` | core/fakesockopt.c:89-120 | the process starts with the given message descriptor, nothing sent, and the `/proc` prefix taken from `NFSIM_PROC_PREFIX` or the default when it is unset |
| `Interposer.Peer.Open` | core/fakesockopt.c:377-412 | a path outside `/proc/` reaches the real `open` unchanged; a `/proc/` path reaches it rewritten, or -ENOMEM is returned when the allocation fails; the mode is passed only with O_CREAT |
| `Interposer.Peer.Fopen` | core/fakesockopt.c:414-434 | the same redirection for `fopen`; a failed allocation returns NULL and sets `errno` to -ENOMEM |
| `Interposer.Peer.DoFork` | core/fakesockopt.c:159-200 | the process's state after `do_fork` is the one `Fork` describes |
| `Interposer.Peer.HandleKernelop` | core/fakesockopt.c:202-243 | the process's state after `handle_kernelop` is the one `Kernelop` describes |
| `Interposer.Peer.FakeSyscall` | core/fakesockopt.c:247-300 | (corrected payload check) the header-only UM_SYSCALL request is appended to what was sent, kernel operations are served until the first syscall reply, and the result and the new state are `Await`'s (see `AwaitFirstReply`): that reply with a negative retval's negation in `errno`, or the process gone |
| `Interposer.Peer.Getsockopt` | core/fakesockopt.c:302-317 | whatever the descriptor and level, PF_INET, the option, the buffer and the length are sent; `*optlen` gets the length that was sent |
| `Interposer.Peer.Setsockopt` | core/fakesockopt.c:319-330 | the same request with SYS_SETSOCKOPT |
| `FailTest.FailpathStringConcat` | core/failtest.c:186-196 | the printed path of two ledgers one after the other is the concatenation of their printed paths |
| `FailTest.FailpathStringOne` | core/failtest.c:191-194 | a one-entry ledger prints as the single token `[location]:line:F` or `...:S` |
| `FailTest.FlagAt` | core/failtest.c:149-162 | `F`/`f` consume one character and fail, `S`/`s` consume one and succeed, the end of the path succeeds and ends replay, and any other character is a fatal mismatch |
| `FailTest.PathExhausted` | core/failtest.c:156-158 | at the end of the path the call succeeds and clears the path |
| `FailTest.FlagAtAdvances` | core/failtest.c:149 | a flag that is read moves the cursor by exactly one character |
| `FailTest.LineCheckedAdvances` | core/failtest.c:139-146 | after a numeral closed by `:` the cursor moves past the `:`, staying within the path |
| `FailTest.LineStageAdvances` | core/failtest.c:135-162 | the line and flag stages, when they go on, leave the cursor on a proper suffix of the path |
| `FailTest.DoFailpathAdvances` | core/failtest.c:124-163 | a replay step that goes on leaves the cursor on a strictly shorter suffix of the path |
| `FailTest.OpensWith` | core/failtest.c:126-132 | a path starting `[loc]` passes the location check for `loc` |
| `FailTest.OpensWithOther` | core/failtest.c:126-131 | when neither name holds a `]`, a path beginning `[loc]` fails the check for any other name |
| `FailTest.LineOf` | core/failtest.c:135-147 | the `:line:` stage of a printed token is passed exactly by a call on that script line |
| `FailTest.LineStageColon` | core/failtest.c:135-139 | after a `:` the rest of the path is read by `strtoul` in base 10 |
| `FailTest.NumeralChecked` | core/failtest.c:140-146 | a numeral read as `line` and followed by `:` passes only a call on `line`; any other line is fatal |
| `FailTest.TokenParts` | core/failtest.c:192-194 | a token is `[`, the location, `]:`, the decimal line, `:` and the flag, and its length follows from those parts |
| `FailTest.TokenReplay` | core/failtest.c:124-163 | a printed token is replayed by a call from its location on its line, gives back its recorded flag, and leaves the cursor just after it |
| `FailTest.TokenRejectsOtherCalls` | core/failtest.c:126-145 | a call from another location (neither holding `]`) or on another line does not match the token, and replay is fatal |
| `FailTest.CallsOf` | core/failtest.c:273-276 | one (location, line) call per ledger entry, in order |
| `FailTest.FlagsOf` | core/failtest.c:286-309 | one recorded flag per ledger entry, in order |
| `FailTest.FailpathStringCons` | core/failtest.c:191-194 | a non-empty ledger prints as its first token followed by the rest |
| `FailTest.ReplayFrom` | core/failtest.c:124-196 | replaying a printed ledger followed by any text, with the calls that built the ledger, yields every recorded flag and leaves that text |
| `FailTest.ReplayRoundTrip` | core/failtest.c:124-196 | `--failpath` with the path `--failtest` printed, and the same calls, reproduces every success and failure and ends with replay switched off |
| `FailTest.OnceSeenAnyOccurrence` | core/failtest.c:228-232 | (corrected check) any bracketed `[loc]` the cursor has passed counts, not only the first occurrence of `loc` |
| `FailTest.TokenInLedger` | core/failtest.c:191-194 | the printed path splits around the token of any one decision |
| `FailTest.BracketOfToken` | core/failtest.c:192 | wherever a token stands, its `[location]` stands at the same place |
| `FailTest.OnceSeenRecorded` | core/failtest.c:228-232 | (corrected check) a location recorded in one of the first `m` tokens is seen once the cursor has passed those tokens |
| `FailTest.SampleTokens` | core/failtest.c:186-196 | the sample ledger (`kab` succeeded, `ab` failed, then `z`) prints as `[kab]:1:S[ab]:1:F[z]:1:F` |
| `FailTest.SampleFirstOccurrence` | core/failtest.c:229 | in that path `strstr` finds `ab` first inside `[kab]`, at index 2 |
| `FailTest.SampleNextToken` | core/failtest.c:126-131 | the token at the cursor after the first two is `[z]`, which a call for `ab` does not match |
| `FailTest.OnceSeenAsWrittenMissesToken` | core/failtest.c:228-234 | replaying that path, the check as written misses the `[ab]` token the cursor has passed and replay is fatal; the corrected check answers false |
| `FailTest.AfterFork` | core/failtest.c:285-315 | the child returns true; the parent returns false when the child exited with success or a script failure, and otherwise exits silently, reporting first unless the child already did |
| `FailTest.Controller.constructor` | core/failtest.c:63-111 | `--failtest`, `--failpath` and `--failtest-no-report` set the mode, the path and the excluded name; the counters start at 0 and 2 and the ledger is empty |
| `FailTest.Controller.Suppress` | core/failtest.c:30 | the suppression count goes up by one |
| `FailTest.Controller.Unsuppress` | core/failtest.c:30 | the suppression count goes down by one |
| `FailTest.Controller.Replay` | core/failtest.c:124-163 | one `do_failpath` step on the current path: the flag it yields and the new cursor, or a fatal mismatch |
| `FailTest.Controller.ShouldIFail` | core/failtest.c:249-316 | suppressed: false with nothing changed; replaying: one replay step, leaving the warning flag and the report alone; not exploring: false with `failpoints` counted; exploring: a decision appended and the fork outcome, with the peer asked to fork in the child and the warning raised once failures outnumber the allowance |
| `FailTest.Controller.WarnExcessive` | core/failtest.c:267-271 | the warning is issued at most once, and once failures exceed the allowance |
| `FailTest.Controller.Settle` | core/failtest.c:285-315 | the new decision is recorded as a failure in the child and in a reporting parent; the child counts the failure unless the excluded name matches; a report carries the printed path |
| `FailTest.Controller.InLedger` | core/failtest.c:237-239 | true exactly when some decision has that location |
| `FailTest.Controller.ShouldIFailOnce` | core/failtest.c:220-246 | (corrected replay check) suppressed, or a location already passed in replay or already recorded: false with everything unchanged; replaying an unseen location: one replay step; exploring a new one: `failpoints` counted and, when failures are tested, a decision appended with the fork outcome and the peer asked to fork in the child; a granted failure raises the allowance by one and nothing else does |
| `ProcFs.MatchIsNameEquality` | kernelenv/proc_stuff.c:28-33 | for an entry whose `namelen` is its name's length, `proc_match` is equality of the component with the stored name |
| `ProcFs.MatchIndex` | kernelenv/proc_stuff.c:49-52 | the first child at or after `i` that the component matches, or none when no later child does |
| `ProcFs.Lookup` | kernelenv/proc_stuff.c:49-53 | the found entry is a child of the directory that matches the component; none means that no child matches |
| `ProcFs.Xlate` | kernelenv/proc_stuff.c:35-60 | every component ended by `/` names a child, or the result is -ENOENT; the result is the last directory reached and the final component |
| `ProcFs.XlateStep` | kernelenv/proc_stuff.c:44-55 | one component before a `/`: the walk continues from the child it names, or fails when there is none |
| `ProcFs.Resolve` | kernelenv/proc_stuff.c:805-827 | every component, the last included, must name a child; the found entry is in the tree |
| `ProcFs.ResolveIsXlateThenLookup` | kernelenv/proc_stuff.c:796-829 | `find_proc_entry` finds what translating the name and then looking its final component up finds |
| `ProcFs.ProcCreateAsWritten` | kernelenv/proc_stuff.c:219-251 | as written the entry stores the whole name with the length of its final component |
| `ProcFs.ProcCreate` | kernelenv/proc_stuff.c:219-251 | (corrected) nothing is created for a NULL or empty name, an untranslatable path or an injected failure; otherwise the entry stores the final component with its length, the mode, and no children |
| `ProcFs.Register` | kernelenv/proc_stuff.c:253-259 | the new entry heads the directory's children and records the directory as parent; nothing else changes |
| `ProcFs.RegisterKeepsClosed` | kernelenv/proc_stuff.c:253-259 | registering a childless entry younger than its directory keeps every child link inside the tree |
| `ProcFs.LookupAfterRegister` | kernelenv/proc_stuff.c:253-259 | a registered entry shadows older siblings of its name, and every other lookup is unchanged |
| `ProcFs.Unlink` | kernelenv/proc_stuff.c:316-323 | the first child matching the component is taken out and the others keep their order; none when no child matches |
| `ProcFs.UnlinkKeepsValid` | kernelenv/proc_stuff.c:316-323 | unlinking a child keeps the tree closed, rooted and numbered below the next free entry |
| `ProcFs.ProcRoot.constructor` | kernelenv/proc_stuff.c:934-946 | after `proc_init` the tree is `/proc` with `net`, `net/stat` and `sys` |
| `ProcFs.ProcRoot.FindChild` | kernelenv/proc_stuff.c:49-52 | the sibling walk returns what `Lookup` describes |
| `ProcFs.ProcRoot.XlateProcName` | kernelenv/proc_stuff.c:35-60 | the loop returns what `Xlate` describes |
| `ProcFs.ProcRoot.FindProcEntry` | kernelenv/proc_stuff.c:796-829 | the loop after stripping `/proc/` returns what `Resolve` describes |
| `ProcFs.ProcRoot.CreateProcEntry` | kernelenv/proc_stuff.c:261-286 | `proc_create` and then `proc_register` under the directory it found; the tree stays valid and nothing else changes |
| `ProcFs.ProcRoot.RemoveProcEntry` | kernelenv/proc_stuff.c:306-327 | an untranslatable name is fatal; the first child matching the final component is unlinked; no match is fatal unless `--ignore-proc-issues` |
| `ProcFs.ProcRoot.UnlinkChild` | kernelenv/proc_stuff.c:316-323 | the pointer walk unlinks what `Unlink` describes |
| `ProcFs.NetFooPlacement` | kernelenv/proc_stuff.c:35-60 | `net/foo` translates to the `net` directory and the component `foo` |
| `ProcFs.NetStep` | kernelenv/proc_stuff.c:809-824 | after the new entry is registered under `net`, the walk of `net/foo` goes through `net` |
| `ProcFs.FooStep` | kernelenv/proc_stuff.c:817-822 | there `foo` is found exactly when the new entry matches it |
| `ProcFs.NetFooWalk` | kernelenv/proc_stuff.c:796-829 | `/proc/net/foo` is found exactly when the registered entry matches `foo` |
| `ProcFs.CreatedEntryNotFoundAsWritten` | kernelenv/proc_stuff.c:239-240 | `create_proc_entry("net/foo", 0444, NULL)` as written stores `net/foo` with length 3, and `/proc/net/foo` is then not found |
| `ProcFs.CreatedEntryFound` | kernelenv/proc_stuff.c:219-286 | the corrected `proc_create` stores `foo`, and `/proc/net/foo` finds it |
| `ProcFs.CreatedEntryIsFound` | kernelenv/proc_stuff.c:219-286 | with the corrected `proc_create`, any entry created under the directory its name translates to is found at `/proc/` followed by that name |
| `ProcFs.XlateAfterRegister` | kernelenv/proc_stuff.c:253-259 | registering under a directory leaves every translation that ends there unchanged |
| `ProcFs.ChildIsYounger` | kernelenv/proc_stuff.c:253-259 | in a closed tree every child is younger than its directory, since an entry is registered after the directory it goes into |
| `ProcFs.CreatedInTree` | kernelenv/proc_stuff.c:219-251 | a created entry goes into a directory of the tree and has no children |
| `ProcFs.RegisterKeepsValid` | kernelenv/proc_stuff.c:253-259 | registering a childless entry as the next free identity keeps the tree rooted and closed, with every identity below the new next one |
| `ProcFs.CreateKeepsValid` | kernelenv/proc_stuff.c:261-286 | `create_proc_entry` registers its entry, when there is one, under a directory of the tree with an unused identity, and the tree stays rooted and closed |
| `ProcFs.UnlinkKeepsClosed` | kernelenv/proc_stuff.c:316-323 | unlinking a child keeps the set of entries and every child link inside the tree |
| `ProcTable.TableMode` | kernelenv/proc_stuff.c:447-454 | an entry without a handler is created as a directory; one with a handler is a directory only when its table mode already says so; the permission bits are the table's |
| `ProcTable.RegisterFrom` | kernelenv/proc_stuff.c:439-473 | the entries are registered in order and the first fatal one ends the walk; the table comes back with only `de` and `child` written, every old entry of the tree is still there, identities stay below the next free one and the tree stays closed |
| `ProcTable.RegisterEntry` | kernelenv/proc_stuff.c:439-469 | an entry without a procname is left as it is; one with neither a handler nor a child table is fatal; otherwise only `de` and `child` are written, no entry is lost and the tree stays closed |
| `ProcTable.Descend` | kernelenv/proc_stuff.c:470-472 | `table->de = de`; an entry that is not a directory is done; a directory without a child table is fatal |
| `ProcTable.CreatedWithData` | kernelenv/proc_stuff.c:463-466 | creating the entry and then setting `de->data` to the table entry is registering the entry with that data |
| `ProcTable.RegisterFromGrows` | kernelenv/proc_stuff.c:439-473 | registering a table keeps every entry of the tree, changed at most by children put in front of its child list |
| `ProcTable.RegisterEntryGrows` | kernelenv/proc_stuff.c:447-472 | the same for one entry: a directory reused, a file or directory created, and its child table |
| `ProcTable.RegisterEntryPlaces` | kernelenv/proc_stuff.c:450-470 | an entry with a non-empty procname is recorded as a child of `root` whose name matches the procname |
| `ProcTable.RegisteredEntriesPlaced` | kernelenv/proc_stuff.c:439-473 | after a table registers, every entry with a non-empty procname is recorded as a child of `root` that its name matches, and every entry without a procname is unchanged |
| `ProcTable.RegisterFromKeepsOlder` | kernelenv/proc_stuff.c:439-473 | registering under a directory leaves every entry older than that directory as it was |
| `ProcTable.DirectoryReused` | kernelenv/proc_stuff.c:453-460 | a directory entry whose name matches a child of `root` records that child as its `de`, and `root` itself is left as it was: no second directory is created |
| `ProcTable.FailedCreateSkipped` | kernelenv/proc_stuff.c:462-465 | an entry whose create fails (an empty procname, failure injection being suppressed) is skipped, and the tree and the entry stay as they were |
| `ProcTable.RegisterHolds` | kernelenv/proc_stuff.c:439-473 | a fresh table (distinct non-empty procnames, no `de` recorded, a file with a handler, no child table and no directory bit, a directory with a fresh child table), none of whose directories `root` already has, registers without error; the tree then holds every entry laid out under `root` in front of `root`'s old children, with identities from `next` on, and nothing else that was there changes |
| `ProcTable.UnregisterFrom` | kernelenv/proc_stuff.c:482-499 | the entries are unregistered in order and the first fatal one ends the walk; the table comes back with only `de` and `child` written, the set of entries is unchanged and the tree stays closed |
| `ProcTable.UnregisterEntry` | kernelenv/proc_stuff.c:483-498 | an entry without a recorded `de` is skipped, and so is a directory entry without a child table; otherwise `de` is kept or cleared, the set of entries is unchanged and the tree stays closed |
| `ProcTable.Remove` | kernelenv/proc_stuff.c:497-498 | `de` is cleared and the first child of `root` matching the procname is unlinked; this is fatal exactly when the procname is NULL, or no child matches and `--ignore-proc-issues` is off |
| `ProcTable.NonEmptyDirectoryKept` | kernelenv/proc_stuff.c:490-497 | a directory entry keeps its `de`, and its directory, exactly when the directory still has children once its child table is unregistered |
| `ProcTable.UnregisterTouches` | kernelenv/proc_stuff.c:482-499 | unregistering changes only child lists, and only those of `root` and of the entries the table owns |
| `ProcTable.UnregisterEntryRestores` | kernelenv/proc_stuff.c:483-498 | unregistering a laid-out entry takes it out of `root`'s child list, the rest of the list in order, and clears its `de` |
| `ProcTable.UnregisterRestores` | kernelenv/proc_stuff.c:482-499 | unregistering a laid-out table succeeds, gives `root` back the children it had before, and clears every `de` |
| `ProcTable.TableRoundTrip` | kernelenv/proc_stuff.c:433-500 | registering a fresh table and then unregistering what that returned both succeed; every entry of the tree from before is as it was, and every `de` is cleared |
| `ProcTable.RegisterSysctlTable` | kernelenv/proc_stuff.c:507-523 | an injected failure returns no header; otherwise the header holds the whole table registered under `proc_sys_root`, no entry is lost and identities stay below the next free one |
| `ProcTable.UnregisterSysctlTable` | kernelenv/proc_stuff.c:525-529 | the header's table is unregistered from `proc_sys_root`; the set of entries is unchanged |
| `ProcTable.SysctlRoundTrip` | kernelenv/proc_stuff.c:507-529 | `register_sysctl_table` of a fresh table fails exactly when failure is injected; otherwise `unregister_sysctl_table` of the header leaves every entry of `/proc` from before as it was |
| `ProcTable.RegisterProcTable` | kernelenv/proc_stuff.c:433-474 | the loop over the table returns what `RegisterFrom` describes, with the same tree and next identity; fatal exactly when `RegisterFrom` is |
| `ProcTable.RegisterTableEntry` | kernelenv/proc_stuff.c:440-472 | one pass of the loop, creating through `create_proc_entry`, is what `RegisterEntry` describes |
| `ProcTable.DescendInto` | kernelenv/proc_stuff.c:470-472 | `table->de = de` and the descent into a directory are what `Descend` describes |
| `ProcTable.UnregisterProcTable` | kernelenv/proc_stuff.c:479-500 | the loop over the table returns what `UnregisterFrom` describes, with the same tree; fatal exactly when `UnregisterFrom` is |
| `ProcTable.UnregisterTableEntry` | kernelenv/proc_stuff.c:483-498 | one pass of the loop, removing through `remove_proc_entry`, is what `UnregisterEntry` describes |
| `Sysctl.TestPerm` | kernelenv/proc_stuff.c:360-366 | `op` is granted exactly when its bits lie within `0007` and are all among the owner's bits `mode >> 6`; otherwise -EACCES |
| `Sysctl.PermIsOwnerBit` | kernelenv/proc_stuff.c:360-371 | reading is granted by the owner's read bit (0400), writing by the owner's write bit (0200), and no other bit of the mode matters |
| `Sysctl.RwProcOwnerBits` | kernelenv/proc_stuff.c:373-398 | a file without a table or without a handler answers -ENOTDIR; without the owner's write bit every write is -EPERM, whatever the handler would do; with it the handler's outcome is returned; the same for reads |
| `Sysctl.Int32Of` | kernelenv/proc_stuff.c:541 | an `unsigned long` stored into an `int` keeps its low 32 bits, read as two's complement |
| `Sysctl.ConvWrite` | kernelenv/proc_stuff.c:536-553 | the plain, jiffies and minmax conversions of a parsed sign and magnitude: the stored `int`, or a refusal (-EINVAL) for a minmax value outside its bounds, which leaves the value unchanged |
| `Sysctl.Magnitude` | kernelenv/proc_stuff.c:543-550 | the magnitude a read takes is `-val` computed in `int` and widened, so INT_MIN is printed as its own magnitude |
| `Sysctl.ConvRead` | kernelenv/proc_stuff.c:543-550 | a read gives a minus sign exactly for a negative value, and the magnitude of the value, divided by HZ for jiffies |
| `Sysctl.ConvRoundTrip` | kernelenv/proc_stuff.c:536-553 | the write conversion undoes the read conversion: the sign and magnitude a read takes from any `int`, INT_MIN too, convert back to it; with bounds, exactly for the values within them |
| `Sysctl.PrintedValueReadsBack` | kernelenv/proc_stuff.c:582-633 | the text a read prints for a one-value vector (`%s%lu` and the newline), written back, is lexed as the same sign and magnitude, the parse stopping at the newline with one character left |
| `Sysctl.PrintedValueStored` | kernelenv/proc_stuff.c:536-633 | so writing back the text a read printed stores the value again; with bounds, exactly when it is within them |
| `Sysctl.RenderedOne` | kernelenv/proc_stuff.c:619-641 | a one-value vector is printed as its sign, its magnitude in `%lu` and a newline, the magnitude at most 2^31 |
| `Sysctl.LexNumeral` | kernelenv/proc_stuff.c:583-616 | an optional minus sign and a numeral of at most ten digits ended by a newline are lexed as that sign and number, stopping at the newline |
| `Sysctl.ParseNumeral` | kernelenv/proc_stuff.c:594-612 | the number parser copies such a text whole and reads the numeral with `simple_strtoul` in base 0, taking every character before the newline |
| `Sysctl.JiffiesRoundTrip` | kernelenv/proc_stuff.c:679-698 | jiffies are printed in whole seconds, so a read and a write back keep the value rounded toward zero to a multiple of HZ |
| `Sysctl.TokensPrefix` | kernelenv/proc_stuff.c:620-635 | the text printed for fewer values is a prefix of the text printed for more |
| `Sysctl.Window` | kernelenv/proc_stuff.c:595-599 | the copied window is the `len` characters starting at `s`, each a NUL past the end of the text |
| `Sysctl.SkipBlank` | kernelenv/proc_stuff.c:584-591 | the skip stops at a non-blank or when `left` runs out, and position plus count stays the same |
| `Sysctl.ParseNumber` | kernelenv/proc_stuff.c:594-616 | a sign and the value `simple_strtoul` reads in base 0, with the characters taken and the count left; no number when nothing converts or junk follows; as written a leading `-` is taken off `left` a second time |
| `Sysctl.Lex` | kernelenv/proc_stuff.c:584-616 | one pass up to the conversion: the count ran out in blanks, no number, or a number with where it ends and the count left |
| `Sysctl.LexesBy` | kernelenv/proc_stuff.c:582-616 | at most `n` lexemes, each read from where the previous number ended; reading stops after anything but a number or when `left` is spent |
| `Sysctl.Lexes` | kernelenv/proc_stuff.c:582-616 | the lexemes of the whole write text, in the order the loop reads them |
| `Sysctl.LexesKeepEnd` | kernelenv/proc_stuff.c:584-616 | with the sign counted once, `s + left` never changes while lexing: nothing is read beyond the text |
| `Sysctl.Store` | kernelenv/proc_stuff.c:613-619 | stores from index `i` on, at most one value per lexeme, each an `int` within the bounds, and changes no other value; `first` stays set exactly when nothing is stored |
| `Sysctl.LexesHead` | kernelenv/proc_stuff.c:582-616 | the first lexeme is one `Lex` pass, and after a number the rest are read from where it ended |
| `Sysctl.StoreHead` | kernelenv/proc_stuff.c:613-619 | the stores are the first lexeme's store followed by the stores of the rest |
| `Sysctl.WriteLoopStep` | kernelenv/proc_stuff.c:582-619 | one pass of the write loop is the lexeme it reads and the store it makes |
| `Sysctl.TrailingBlank` | kernelenv/proc_stuff.c:642-650 | the blanks after the loop are skipped, and the count left is what remains unread |
| `Sysctl.DoProcDointvec` | kernelenv/proc_stuff.c:555-657 | the in-place loop over the table's `data` gives the return value, text, length and position of the whole `do_proc_dointvec`, with the sign counted once |
| `Sysctl.ReadVector` | kernelenv/proc_stuff.c:620-641 | the text put in the user buffer is the rendered vector, tab-separated and ended by a newline, cut to `*lenp` characters |
| `Sysctl.ReadStep` | kernelenv/proc_stuff.c:621-634 | one pass of the read loop appends the next value's text, tab-separated, cut to what is left |
| `Sysctl.ReadEnds` | kernelenv/proc_stuff.c:636-641 | where the read loop stops, the text so far plus the newline if there is room is the rendered vector cut to `*lenp` characters |
| `Sysctl.ReadSuffix` | kernelenv/proc_stuff.c:582-616 | after `j` lexemes ending in a number, the lexemes still to come are those read from where that number ended |
| `Sysctl.ReadNext` | kernelenv/proc_stuff.c:582-616 | while the count and the vector last, the next lexeme is the one read at the cursor |
| `Sysctl.ReadStop` | kernelenv/proc_stuff.c:582 | once the count or the vector has run out, nothing more is read |
| `Sysctl.WriteVector` | kernelenv/proc_stuff.c:582-619 | (corrected: the sign counted once) the write loop stores into `data` in place what `Store` of the text's lexemes describes, and returns the final `first`, `left` and position |
| `Sysctl.WriteVectorBy` | kernelenv/proc_stuff.c:582-619 | the loop itself, over passes read through an abstract reader, agrees with `Store` of the lexemes that reader yields |
| `Sysctl.WritePass` | kernelenv/proc_stuff.c:583-619 | one pass on `data[i]` stores the converted number of the `i`th lexeme, or takes a `break` |
| `Sysctl.NextLexeme` | kernelenv/proc_stuff.c:584-616 | the `i`th lexeme of the text, read from where the ones before it ended |
| `Sysctl.ReadLexeme` | kernelenv/proc_stuff.c:584-616 | skipping blanks and then parsing a number gives the lexeme `Lex` describes |
| `Sysctl.ParseAt` | kernelenv/proc_stuff.c:594-612 | the number at `s`: the window copied, a `-` taken when more than it is left, `simple_strtoul` in base 0, and the check on what follows |
| `Sysctl.SkipTrailing` | kernelenv/proc_stuff.c:642-650 | the trailing loop skips what `TrailingBlank` describes |
| `Sysctl.WriteOutcome` | kernelenv/proc_stuff.c:555-657 | (corrected: the sign counted once) a write fails with -EINVAL, changing nothing, exactly when it stores no value; otherwise `*ppos` advances by what it consumed; only the first `maxlen / 4` values can change, and with bounds each stored one is within them |
| `Sysctl.SysctlIntvec` | kernelenv/proc_stuff.c:763-794 | a length that is not a whole number of `int`s is -EINVAL; without bounds or without data the write is accepted; otherwise -EINVAL exactly when one of the first `min(newlen, maxlen) / 4` values lies outside its own bounds |
| `Sysctl.ParseMinusFive` | kernelenv/proc_stuff.c:594-616 | in `-5 7` the number `-5` takes two characters and leaves three counted as written, four with the sign counted once |
| `Sysctl.ParseSeven` | kernelenv/proc_stuff.c:594-616 | the last character `7` parses as the number 7 |
| `Sysctl.LexMinusFive` | kernelenv/proc_stuff.c:584-616 | the first pass over `-5 7` reads `-5` both ways, with the counts it leaves |
| `Sysctl.LexesTwice` | kernelenv/proc_stuff.c:584-616 | as written, the lexemes of `-5 7` are `-5` and then a blank that spends the count |
| `Sysctl.LexesOnce` | kernelenv/proc_stuff.c:584-616 | with the sign counted once, the lexemes are `-5` and `7` |
| `Sysctl.StoresTwice` | kernelenv/proc_stuff.c:613-619 | as written only `-5` is stored |
| `Sysctl.StoresOnce` | kernelenv/proc_stuff.c:613-619 | with the sign counted once `-5` and `7` are stored |
| `Sysctl.SignCountedTwice` | kernelenv/proc_stuff.c:601-616 | writing `-5 7` to a two-value vector as written stores only -5, and 7 is never parsed |
| `Sysctl.SignCountedOnce` | kernelenv/proc_stuff.c:555-657 | the same write with the sign counted once stores both -5 and 7 |
| `GenIp.StringToNumber` | tools/gen_ip.c:59-74 | the result is an `unsigned int`; it is either `(unsigned) -1` or in `[min, max]`, and in the latter case the whole text converted under `strtoul` base 0, cut to 32 bits; the empty text is refused |
| `GenIp.StringToNumberReadsDecimal` | tools/gen_ip.c:65-69 | a decimal numeral within the range reads back as its value |
| `GenIp.StringToNumberRefusesOutside` | tools/gen_ip.c:68-71 | a decimal numeral outside the range gives `(unsigned) -1` |
| `GenIp.StringToNumberWraps` | tools/gen_ip.c:65 | the `(unsigned int)` cast of `strtoul`'s result wraps: 4294967296 reads as 0 |
| `GenIp.ParseProtocol` | tools/gen_ip.c:78-100 | the protocol is -1 or a 16-bit number |
| `GenIp.LetterIsNoNumber` | tools/gen_ip.c:85-87 | a text starting with a letter never converts, so a name cannot be taken for a number |
| `GenIp.ProtocolNames` | tools/gen_ip.c:94-96 | `all`, `tcp`, `udp` and `icmp`, in any case, give 0, 6, 17 and 1 |
| `GenIp.ProtocolNumbers` | tools/gen_ip.c:85-87 | a decimal number below 65536 is taken as that protocol number |
| `GenIp.Copied` | tools/gen_ip.c:111 | `strncpy` into `buf[20]` keeps a prefix of the argument of at most 19 characters |
| `GenIp.ReadField` | tools/gen_ip.c:120 | one field read by `string_to_number(p, 0, 255)`: `(unsigned) -1` or at most 255 |
| `GenIp.AddrBy` | tools/gen_ip.c:114-135 | an address found has exactly four bytes |
| `GenIp.AddrOf` | tools/gen_ip.c:102-135 | an address found has four bytes, each below 256 |
| `GenIp.DottedToAddr` | tools/gen_ip.c:102-135 | the result is the address in the copied text, or NULL when there is none |
| `GenIp.DottedToAddrBy` | tools/gen_ip.c:114-134 | the three-pass `strchr` loop and the last field together compute exactly the four-field address of the copied text |
| `GenIp.NextField` | tools/gen_ip.c:116-125 | one pass: with a `.` it reads the first field and continues with the fields after it; a refused field or a missing `.` stops the loop |
| `GenIp.AddrByShort` | tools/gen_ip.c:116-117 | fewer than four fields give NULL |
| `GenIp.AddrByRefused` | tools/gen_ip.c:120-121 | a refused field among the four gives NULL |
| `GenIp.AddrByLong` | tools/gen_ip.c:129-130 | a fifth field gives NULL, because the last text then holds a `.` and does not convert |
| `GenIp.AddrByAccepted` | tools/gen_ip.c:123-134 | four accepted fields give their values as the address bytes, in order |
| `GenIp.DottedRoundTrip` | tools/gen_ip.c:102-135 | every address printed in dotted decimal reads back as itself |
| `GenIp.HexDigits` | tools/gen_ip.c:141 | the digits `%02x` reads when the text starts with a hex digit: at most two, stopping at the first non-digit. In this model a text that does not start with a hex digit gives none. That is the model's restriction, since `%02x` would first skip blanks and read a sign |
| `GenIp.HexValue` | tools/gen_ip.c:141-143 | the value read by `%02x` fits one byte |
| `GenIp.Unescape` | tools/gen_ip.c:149-172 | the decoding of escapes that steps over exactly the hex digits read; the decoded text is never longer than the input |
| `GenIp.UnescapeAsWritten` | tools/gen_ip.c:162-165 | the decoding as written, stepping over two characters after `\x` whatever was read; never longer than the input |
| `GenIp.SingleHexDigitSwallows` | tools/gen_ip.c:162-165 | `\x4z` decodes to one character as written, losing the `z`; the corrected decoding keeps it |
| `GenIp.CopyPrintable` | tools/gen_ip.c:149-172 | the loop writes exactly the decoding of the text, and returns NULL exactly when it has none |
| `GenIp.DecodeOne` | tools/gen_ip.c:154-169 | one loop pass writes the character for the character or escape at `i` and moves past it; an unknown escape or a lone `\` fails |
| `GenIp.EscapedChar` | tools/gen_ip.c:156-161 | the simple escapes are exactly `n`, `r`, `t`, `0` and `\` |
| `GenIp.UnescapeEscape` | tools/gen_ip.c:149-172 | every text, escaped, decodes back to itself |
| `GenIp.PayloadStep` | tools/gen_ip.c:179-186 | the payload of one more argument is the old payload, a blank, and the new argument's decoding |
| `GenIp.GenIpDataLength` | tools/gen_ip.c:174-188 | -1 exactly when an argument fails to decode; otherwise the length of the decoded arguments joined by blanks |
| `GenIp.CopyData` | tools/gen_ip.c:323-333 | the `DATA` loop writes exactly the decoded arguments joined by blanks, and fails exactly when one does not decode |
| `GenIp.FlagName` | tools/gen_ip.c:361-376 | each flag name is three characters without a `/` |
| `GenIp.FlagAt` | tools/gen_ip.c:360-380 | the flag found is one whose name starts the text at `p`; none found means no name starts it |
| `GenIp.FlagNamed` | tools/gen_ip.c:361-376 | a name stands for the flag it names, and an unknown name for none |
| `GenIp.ParseFlags` | tools/gen_ip.c:353-389 | the loop sets exactly the flags the `/`-separated names name, and fails on any other text |
| `GenIp.NextFlag` | tools/gen_ip.c:360-387 | one pass reads one name and either ends with the outcome or moves past the `/` without changing what remains to be read |
| `GenIp.LongField` | tools/gen_ip.c:381-387 | a name followed by anything but `/` or the end fails |
| `GenIp.NamesIn` | tools/gen_ip.c:361-376 | every name listed for a set of flags is a flag name without `/`; a non-empty set lists some |
| `GenIp.FlagsFromNames` | tools/gen_ip.c:360-382 | reading the names of some flags sets exactly those flags, added to those already set |
| `GenIp.FlagsRoundTrip` | tools/gen_ip.c:353-389 | every set of flags, written as `NONE` or as names joined by `/`, reads back as itself |
| `GenIp.NamesRoundTrip` | tools/gen_ip.c:360-389 | names joined by `/` in any order that lists them all read back as the set |
| `GenIp.NotNone` | tools/gen_ip.c:357-358 | names joined by `/` are never the word `NONE` |
| `GenIp.NonEmpty` | tools/gen_ip.c:399-401 | `strtok` yields no empty tokens, and no more tokens than pieces |
| `GenIp.OptionBytes` | tools/gen_ip.c:402 | each token becomes one byte value, below 256 |
| `GenIp.ParseTcpOptions` | tools/gen_ip.c:392-415 | accepted exactly when there are at most 40 tokens and a multiple of four; the bytes are the tokens' values and the data offset counts the 20-byte header plus the options, in words from 5 to 15 |
| `GenIp.OptionsRoundTrip` | tools/gen_ip.c:392-415 | bytes written as comma-separated numerals read back as themselves |
| `GenIp.ParseTcpNumberAsWritten` | tools/gen_ip.c:418-430 | as written every text is accepted: a converting text as its 32-bit value, anything else as `(unsigned) -1` |
| `GenIp.ParseTcpNumber` | tools/gen_ip.c:418-430 | corrected: accepted exactly when the text converts to something other than `(unsigned) -1`, as that value |
| `GenIp.TcpNumberJunkAccepted` | tools/gen_ip.c:422-426 | `SYN` as a sequence number is accepted as 0xffffffff as written, and refused when corrected |
| `GenIp.TcpNumberRoundTrip` | tools/gen_ip.c:418-430 | every number below 0xffffffff, printed in decimal, reads back as itself |
| `GenIp.MacGroup` | tools/gen_ip.c:542-549 | a group reads as a byte value, or -1 when it is not two hex digits in range |
| `GenIp.MacOf` | tools/gen_ip.c:531-552 | an address read has six octets, each below 256 |
| `GenIp.ParseMac` | tools/gen_ip.c:531-552 | the loop reads exactly the address of the text, or 0 when it has none |
| `GenIp.HexPairReads` | tools/gen_ip.c:542-546 | two hex digits followed by `:` or the end are read by `strtol` as their value, ending two characters on |
| `GenIp.MacRoundTrip` | tools/gen_ip.c:531-552 | every address written as six `:`-separated hex pairs reads back as itself |
| `GenPacket.ParseIcmp` | tools/gen_ip.c:237-294 | type and code are read from 0 to 255; echo and echo reply take exactly an id and a sequence (each 0 to 255); a parameter problem takes its pointer into the top byte of the second word; other types take no more arguments; the length is the 8-byte header plus `datalen`; fewer than two arguments fail |
| `GenPacket.IcmpEchoRoundTrip` | tools/gen_ip.c:241-274 | an echo header written as four decimal arguments reads back as itself |
| `GenPacket.DataOf` | tools/gen_ip.c:319-334 | the `DATA` arguments yield a payload exactly when each one decodes |
| `GenPacket.UdpOf` | tools/gen_ip.c:298-350 | accepted exactly when both ports read from 0 to 65535 and what follows is nothing or `DATA` with decodable arguments; the length is the 8-byte header plus `datalen` as a `u_int16_t`; the payload is the decoded data |
| `GenPacket.ParseUdp` | tools/gen_ip.c:298-350 | the code computes exactly that UDP header |
| `GenPacket.UdpRoundTrip` | tools/gen_ip.c:309-342 | ports written in decimal, with or without `DATA`, read back as themselves with the decoded payload |
| `GenPacket.Past` | tools/gen_ip.c:465-488 | an optional `KEY=` argument is stepped over exactly when the next argument starts with the key |
| `GenPacket.NumberField` | tools/gen_ip.c:465-475 | `SEQ=`/`ACK=`: absent gives 0 and steps nothing; present gives the number after the key, and is refused exactly when that text is not a number (corrected: as written `parse_tcpnumber` never refuses) |
| `GenPacket.WindowField` | tools/gen_ip.c:477-483 | `WIN=`: absent gives 0; present gives the window read from 0 to 65535 and fails exactly when that read fails |
| `GenPacket.TcpOptionsOf` | tools/gen_ip.c:392-415 | accepted exactly for at most 40 tokens, a multiple of four; the data offset counts the header and the options in words from 5 to 15 |
| `GenPacket.OptionsReadBack` | tools/gen_ip.c:392-415 | option bytes written as numerals read back with the data offset `(20 + n) / 4` |
| `GenPacket.OptField` | tools/gen_ip.c:485-491 | `OPT=`: absent gives a data offset of 5 and no options; present gives what `parse_tcp_options` reads |
| `GenPacket.DataField` | tools/gen_ip.c:493-513 | no argument left means no payload; otherwise the argument must be `DATA` with decodable arguments after it, anything else is an extra argument and fails |
| `GenPacket.TcpOf` | tools/gen_ip.c:434-528 | fewer than three arguments or bad flags fail; an accepted header has the ports read from 0 to 65535 and exactly the flags named, a data offset counting its options, a 16-bit window, and the length `doff * 4 + datalen` as a `u_int16_t` |
| `GenPacket.TcpSeq` | tools/gen_ip.c:465-469 | the stages after the flags keep the ports and flags and the size rules |
| `GenPacket.TcpAck` | tools/gen_ip.c:471-475 | the stages after `SEQ=` also keep the sequence number |
| `GenPacket.TcpWin` | tools/gen_ip.c:477-483 | the stages after `ACK=` also keep the acknowledgement number |
| `GenPacket.TcpOpt` | tools/gen_ip.c:485-491 | the stages after `WIN=` also keep the window |
| `GenPacket.TcpData` | tools/gen_ip.c:493-520 | the last stage only sets the payload, and the length is `doff * 4 + datalen` as a `u_int16_t` |
| `GenPacket.ParseTcp` | tools/gen_ip.c:434-528 | the code computes exactly that TCP header |
| `GenPacket.TcpNumbers` | tools/gen_ip.c:465-483 | the `SEQ=`, `ACK=` and `WIN=` steps compute exactly their stage |
| `GenPacket.TcpTail` | tools/gen_ip.c:485-513 | the `OPT=` and `DATA` steps compute exactly their stage |
| `GenPacket.TcpFieldsInOrder` | tools/gen_ip.c:465-491 | the optional fields are read in the order `SEQ=`, `ACK=`, `WIN=`, `OPT=`, each from the argument where the previous left off |
| `GenPacket.TcpAllFields` | tools/gen_ip.c:447-520 | arguments from which every field reads as `h` give exactly the header `h` |
| `GenPacket.TcpRoundTrip` | tools/gen_ip.c:434-528 | a header written with all its optional fields reads back as itself |
| `GenPacket.TcpPortsRead` | tools/gen_ip.c:447-483 | the written ports, flags and window read back |
| `GenPacket.TcpNumbersRead` | tools/gen_ip.c:465-475 | the written `SEQ=` and `ACK=` read back |
| `GenPacket.TcpOptionsRead` | tools/gen_ip.c:485-488 | the written `OPT=` reads back with its data offset |
| `GenPacket.TcpDataRead` | tools/gen_ip.c:493-509 | the written `DATA` reads back as the payload |
| `GenPacket.OrLow` | tools/gen_ip.c:783 | OR-ing a 2-bit ECN value changes only the two low bits, sets them to the value on a clear byte, and changes nothing for 0 |
| `GenPacket.FragStep` | tools/gen_ip.c:686-710 | `FRAG=` is taken only with more than five arguments; the offset, an `atoi` cut to 16 bits, must be a multiple of 8 up to 65528, a `,` must follow and the length must be at least 1; anything else fails |
| `GenPacket.BitsStep` | tools/gen_ip.c:712-728 | `DF`, `MF` and `CE` are each set exactly when given next, and nothing else changes |
| `GenPacket.MacStep` | tools/gen_ip.c:730-742 | `MAC=` is taken when next and must read as an address, which becomes both the source and destination; without it the address is zero |
| `GenPacket.TosStep` | tools/gen_ip.c:744-755 | `TOS=` must be 0 to 255 |
| `GenPacket.DscpStep` | tools/gen_ip.c:757-774 | `DSCP=` after `TOS=` fails; otherwise the code point must be 0 to 63 |
| `GenPacket.EctStep` | tools/gen_ip.c:776-787 | `ECT=` must read from 0 to 3 |
| `GenPacket.TtlStep` | tools/gen_ip.c:789-800 | `TTL=` must be 0 to 255 |
| `GenPacket.OptionsOf` | tools/gen_ip.c:686-800 | the options read are within their ranges, never both `TOS=` and `DSCP=`, and leave the four header arguments |
| `GenPacket.LaterOf` | tools/gen_ip.c:730-800 | the stages from `MAC=` on keep the ranges and the header arguments |
| `GenPacket.FromTos` | tools/gen_ip.c:744-800 | the stages from `TOS=` on keep the ranges and the header arguments |
| `GenPacket.FromDscp` | tools/gen_ip.c:757-800 | the stages from `DSCP=` on keep the ranges and the header arguments |
| `GenPacket.FromEct` | tools/gen_ip.c:776-800 | the stages from `ECT=` on keep the ranges and the header arguments |
| `GenPacket.ReadOptions` | tools/gen_ip.c:686-800 | the option loop computes exactly the options and the remaining arguments |
| `GenPacket.ReadFrag` | tools/gen_ip.c:686-710 | the `FRAG=` step computes exactly its stage |
| `GenPacket.ReadLaterOptions` | tools/gen_ip.c:712-800 | the steps after `FRAG=` compute exactly their stages |
| `GenPacket.ReadDscp` | tools/gen_ip.c:757-800 | the steps from `DSCP=` on compute exactly their stages |
| `GenPacket.ReadEct` | tools/gen_ip.c:776-800 | the steps from `ECT=` on compute exactly their stages |
| `GenPacket.ReadTtl` | tools/gen_ip.c:789-800 | the `TTL=` step computes exactly its stage |
| `GenPacket.TosByte` | tools/gen_ip.c:744-787 | the type-of-service byte fits 8 bits |
| `GenPacket.DscpAndEct` | tools/gen_ip.c:770-783 | a DSCP code point sits above the two ECN bits, which hold the ECT value (0 without one) |
| `GenPacket.EctKeepsTos` | tools/gen_ip.c:745-783 | ECT changes only the low two bits of a `TOS=` byte, and nothing for 0 |
| `GenPacket.FragField` | tools/gen_ip.c:831-843 | the fragment field fits 16 bits |
| `GenPacket.FragFieldBits` | tools/gen_ip.c:835-843 | the fragment field holds the offset in 8-byte units below the flags, and the DF, MF and CE bits exactly as given |
| `GenPacket.PacketOf` | tools/gen_ip.c:677-849 | fewer than five arguments fail; an accepted packet has the options read, followed by the header as read from the four arguments after them |
| `GenPacket.FieldsOf` | tools/gen_ip.c:190-233 | accepted exactly when the length reads from 0 to 65535, the protocol is known, both addresses read and the transport arguments fit the protocol (the protocol's low byte); the header then holds both addresses, the TOS byte, the fragment field, the TTL (255 by default), the MAC (zeros by default) and a total length of 20 plus the fragment length or the segment length |
| `GenPacket.AddressFirstTakesNoOptions` | tools/gen_ip.c:686-804 | arguments that start with an address have no options, and the header is read right after the command name |
| `GenPacket.PacketBounds` | tools/gen_ip.c:222-231 | every header field of an accepted packet fits its width, and the addresses and MAC have four and six bytes |
| `GenPacket.ParsePacket` | tools/gen_ip.c:677-849 | the code computes exactly that packet |
| `GenPacket.ReadHeader` | tools/gen_ip.c:803-806 | the header step computes exactly its result |
| `GenPacket.ReadFields` | tools/gen_ip.c:199-206 | the length and protocol steps compute exactly their result |
| `GenPacket.ReadAddressed` | tools/gen_ip.c:208-220 | the address steps compute exactly their result |
| `GenPacket.ReadCarried` | tools/gen_ip.c:808-836 | the transport step and the total length compute exactly their result |
| `GenPacket.ReadSegment` | tools/gen_ip.c:808-824 | the protocol switch picks the ICMP, TCP or UDP parser, and other protocols take no more arguments |
| `NetMask.PrefixMaskBit` | tools/route.c:61-62 | the netmask of a prefix of `bits` bits has exactly its first `bits` bits set |
| `NetMask.MaskedHasNoHostBits` | tools/route.c:63 | `network &= netmask` leaves no bit outside the netmask |
| `NetMask.LeadingOnes` | tools/route.c:84-89 | the leading-ones count from bit `k` lies between `k` and 32 |
| `NetMask.LeadingOnesStop` | tools/route.c:86-87 | the count stops at a clear bit or at the end of the word |
| `NetMask.LeadingOnesOfPrefix` | tools/route.c:86-92 | a prefix mask counts back to its own number of bits |
| `NetMask.LeadingMaskWithin` | tools/route.c:84-92 | the mask built from the leading ones of `x` sets only bits `x` has, so a mask with a gap is cut at the gap |
| `NetMask.WithinFrom` | tools/route.c:86-89 | from any prefix of bits that `x` has, the count reaches a mask that `x` still covers |
| `NetMask.WithinStep` | tools/route.c:86-89 | one more leading one keeps the mask within `x` |
| `NetMask.OneMoreBit` | tools/route.c:86-89 | adding bit `k` of `x` to the `k`-bit mask within `x` gives a `k + 1`-bit mask within `x` |
| `NetMask.LeadingMaskExact` | tools/route.c:84-92 | the mask form gives the netmask back exactly when it is contiguous |
| `Route.ReadDest` | tools/route.c:39-101 | a destination read has a prefix length of at most 32; a failure is -1 or 1 |
| `Route.RouteDest` | tools/route.c:30-102 | a destination has its network masked, so no host bits, under a contiguous netmask; it exists exactly when the arguments read, and a failure keeps the reading's code |
| `Route.PrefixForm` | tools/route.c:39-65 | `a.b.c.d/bits`: without `/`, with a bad address or with bits outside 0..32 it gives -1; otherwise the address and the bits |
| `Route.MaskForm` | tools/route.c:68-95 | `a.b.c.d mask w.x.y.z` reads when both addresses parse, with the netmask's leading ones as the prefix length; otherwise -1 |
| `Route.OtherShapes` | tools/route.c:100-101 | any other shape of arguments gives 1 |
| `Route.CountMaskBits` | tools/route.c:84-89 | the counting loop ends with the number of leading ones of the netmask, at most 32 |
| `Route.GetRouteDest` | tools/route.c:30-102 | the code computes exactly that destination |
| `Route.FirstMatch` | tools/route.c:104-114 | the first route with the same network and the same netmask, or none when no route has both |
| `Route.FindMatchingRoute` | tools/route.c:104-114 | the list walk finds exactly that route |
| `Route.Without` | tools/route.c:188-197 | the route removed, the others kept in order |
| `Route.AddRules` | tools/route.c:138-175 | `add` succeeds exactly with 4 or 6 arguments, a readable destination not yet routed and a known device, and then the new route heads the table; otherwise nothing changes |
| `Route.DelRules` | tools/route.c:177-205 | `del` succeeds exactly when the destination reads; it removes the first matching route and changes nothing when none matches |
| `Route.AddKeepsTable` | tools/route.c:159-172 | adding a masked destination not yet routed keeps every network masked and every destination once |
| `Route.WithoutKeepsTable` | tools/route.c:188-197 | removing a route keeps the table's shape |
| `Route.RouteKeepsTable` | tools/route.c:116-210 | every `route` command keeps the table's shape: masked networks, contiguous netmasks, no destination twice |
| `Route.Routes.Route` | tools/route.c:116-210 | the command's result and new table are those of the `route` rules |
| `IfConfig.BroadcastPart` | tools/ifconfig.c:103-115 | no argument left succeeds; otherwise success exactly when the broadcast address parses, and then it is set |
| `IfConfig.Configured` | tools/ifconfig.c:57-116 | `set_device`, the mask form counting both its arguments: it always produces a setting |
| `IfConfig.AsWrittenDiffers` | tools/ifconfig.c:80-105 | the written and the corrected `set_device` differ exactly on `ADDR mask NETMASK` with both addresses valid and nothing more, where as written it reads past the last argument |
| `IfConfig.MaskWithoutBroadcast` | tools/ifconfig.c:82-108 | `10.0.0.1 mask 255.0.0.0` reads past the end as written; the corrected reading sets address and netmask and succeeds |
| `IfConfig.AddressSetsBoth` | tools/ifconfig.c:66-77 | a valid address sets `ifa_local` and `ifa_address` alike; an invalid one fails with nothing changed; an address alone succeeds |
| `IfConfig.MaskBitsForm` | tools/ifconfig.c:90-100 | mask bits from 8 to 31 set a netmask of that many leading ones; anything else fails with only the address set |
| `IfConfig.DottedMaskForm` | tools/ifconfig.c:82-88 | `mask` and a valid netmask store the netmask as given; a bad one fails and keeps the old mask |
| `IfConfig.SetDevice` | tools/ifconfig.c:57-116 | the code, with the mask form counted right, computes exactly `Configured` |
| `IfConfig.DeviceName` | tools/ifconfig.c:127 | `strncpy(dev->name, name, IFNAMSIZ)` keeps the first 16 characters |
| `IfConfig.FirstNamed` | core/core.c:545-555 | the first device whose name agrees in its first 16 characters, or none |
| `IfConfig.InterfaceByName` | core/core.c:545-555 | the list walk finds exactly that device |
| `IfConfig.Create` | tools/ifconfig.c:119-146 | the counter advances on every call; the new device, numbered with the old counter, named, with cleared counters and its address record, is appended exactly when `set_device` succeeds; otherwise the list is unchanged |
| `IfConfig.CreateKeepsNumbered` | tools/ifconfig.c:27-144 | creating keeps the devices in increasing index order, all below the counter |
| `IfConfig.Unlinked` | tools/ifconfig.c:193 | the device removed, the others kept in order |
| `IfConfig.IfconfigRules` | tools/ifconfig.c:148-198 | `up` refuses a listed name and fewer than four arguments and otherwise creates; anything else refuses an unknown device; `down` with three arguments unlinks; a reconfiguration changes only that device's address record; the numbering is kept |
| `IfConfig.Interfaces.constructor` | tools/ifconfig.c:27 | no devices and the counter at 1 |
| `IfConfig.Interfaces.CreateDevice` | tools/ifconfig.c:119-146 | the device returned and the new state are those of `Create` |
| `IfConfig.Interfaces.Ifconfig` | tools/ifconfig.c:148-198 | the command's result and new state are those of the dispatch rules |
| `TcpSession.Add32` | tools/tcpsession.c:112 | a `u32` counter moved on by `n` stays below 2^32 and moves by exactly `n` when nothing wraps |
| `TcpSession.Bump` | tools/tcpsession.c:231-232 | `in->seq += n; out->ack += m`: only the sender's sequence number and the peer's acknowledgement number change, and the pending length change is kept |
| `TcpSession.ExpectTail` | tools/tcpsession.c:134-139 | the expected pattern continues with a blank after its length |
| `TcpSession.ExpectLengthDistinct` | tools/tcpsession.c:134-137 | the expectation line of `tcp_send` determines the length it expects: two lengths never give the same line |
| `TcpSession.NumeralsBeforeSameText` | tools/tcpsession.c:137 | two `%i` numerals in front of the same non-digit text are the same number |
| `TcpSession.DataLength` | tools/tcpsession.c:226 | the length `send_data` uses is -1 exactly when an argument does not decode |
| `TcpSession.OpenNumbers` | tools/tcpsession.c:183-215 | an opened session has the original side at sequence 1001 acknowledging 2001, the reply side at 2001 acknowledging 1001, no length change pending, the endpoints as given and the interfaces `eth0` and `eth1` |
| `TcpSession.FinsTakeOneEach` | tools/tcpsession.c:241-248 | the two FINs move each side's sequence and acknowledgement numbers on by exactly one |
| `TcpSession.LenchangeWithoutSession` | tools/tcpsession.c:303-316 | `LENCHANGE 5` before any `OPEN` dereferences NULL as written, and is refused with no session once guarded |
| `TcpSession.OpenRules` | tools/tcpsession.c:271-284 | `OPEN` is refused while a session is open; otherwise it succeeds exactly when it leaves a session; other argument counts than 6 and 10 are refused; the six-argument form mirrors addresses and ports for the reply side; a new session starts at 1001 and 2001 |
| `TcpSession.NeedsSession` | tools/tcpsession.c:285-357 | `DATA`, `CLOSE`, `RESET`, `ABANDON` and (guarded) `LENCHANGE` fail without an open session and leave none |
| `TcpSession.DataRules` | tools/tcpsession.c:223-237 | a data packet not sent leaves the session as it was; once sent, the sender has used `len` sequence numbers, the receiver has acknowledged `len + lenchange`, and no change is pending whatever happens to the ACK; the expectation asks for `len + lenchange` bytes |
| `TcpSession.CloseRules` | tools/tcpsession.c:239-254 | the session is gone exactly when the close succeeds, which takes the last ACK with both FINs counted; a failure keeps the session with the numbers moved so far |
| `TcpSession.ResetRules` | tools/tcpsession.c:256-263 | a reset succeeds exactly when it drops the session; a failed RST keeps it unchanged |
| `TcpSession.AbandonRules` | tools/tcpsession.c:345-357 | `ABANDON` alone drops the open session; with more arguments it is refused and keeps it |
| `TcpSession.LenchangeRules` | tools/tcpsession.c:303-316 | `LENCHANGE` succeeds exactly with three arguments and a non-zero change, and then sets only the pending change; otherwise the session is unchanged |
| `TcpSession.TcpSessions.constructor` | tools/tcpsession.c:120 | no session is open at the start |
| `TcpSession.TcpSessions.Send` | tools/tcpsession.c:122-176 | `tcp_send` succeeds exactly when both the expectation and the packet command succeed |
| `TcpSession.TcpSessions.SendArgv` | tools/tcpsession.c:146-166 | the packet command line: addresses, length, ports, flags, `SEQ=` and `ACK=` of the sender, the window when given and `DATA` with the data words when there are any |
| `TcpSession.TcpSessions.Advance` | tools/tcpsession.c:231-232 | the open session moved on as `Bump` says |
| `TcpSession.TcpSessions.OpenSession` | tools/tcpsession.c:178-221 | the session left is that of the handshake, none on failure, and the result says which |
| `TcpSession.TcpSessions.SendData` | tools/tcpsession.c:223-237 | result and session as `send_data` leaves them |
| `TcpSession.TcpSessions.CloseSession` | tools/tcpsession.c:239-254 | result and session as `close_session` leaves them |
| `TcpSession.TcpSessions.ResetSession` | tools/tcpsession.c:256-263 | result and session as `reset_session` leaves them |
| `TcpSession.TcpSessions.TcpSession` | tools/tcpsession.c:265-360 | result and session as the guarded dispatcher leaves them |
| `Modules.FindModule` | tools/module.c:45-53 | the index found holds a module of that name and no module before it has that name; None means no module of that name is loaded |
| `Modules.FoundIffPresent` | tools/module.c:45-53 | `find_module` succeeds exactly when some loaded module has that name |
| `Modules.FindModuleIn` | tools/module.c:45-53 | the list walk returns the first module of that name, or none |
| `Modules.PutRules` | tools/module.c:55-67 | `module_put` is fatal exactly for an unknown module or one whose use count is 0; otherwise it lowers that module's count by one and leaves every other module as it was |
| `Modules.PutUndoesGet` | tools/module.c:55-84 | a successful `try_module_get` followed by `module_put` on the same module restores the module list |
| `Modules.FirstAgrees` | tools/module.c:45-53 | two lists with the same names in the same places find a name at the same place |
| `Modules.PresentAfterPrepend` | tools/module.c:199 | after `list_add` of a module, a name is loaded exactly when it is the new module's or was loaded before |
| `Modules.MissingPrepend` | tools/module.c:221-232 | loading a module never adds to the `.so` entries whose module is missing, and loading a missing one removes one |
| `Modules.PassProgress` | tools/module.c:215-251 | one pass over the directory only puts modules at the head, one per success, and a pass with a success leaves strictly fewer modules missing, so the do/while loop ends |
| `Modules.LoadAllLoadsEverything` | tools/module.c:207-257 | when `load_all_modules` returns true, the directory opened, every `.so` entry's module is loaded, and the modules loaded before stay at the tail |
| `Modules.NothingTried` | tools/module.c:218-232 | a pass that tries nothing found every `.so` entry's module already loaded |
| `Modules.PassCompletes` | tools/module.c:218-246 | when no init fails, a pass reaches the end of the directory |
| `Modules.PassLoadsOpenable` | tools/module.c:218-246 | with a `dlopen` that keeps working as modules are loaded, an entry whose object opens given the modules loaded when the pass starts is loaded by the end of the pass, unless an init fails |
| `Modules.DependencyLoadsNextPass` | tools/module.c:221-251 | a module that opens once `dep` is loaded, in a pass that loaded `dep`, is loaded by the next pass, wherever the two stand in the directory |
| `Modules.LoadAllClosed` | tools/module.c:207-257 | when no init fails, `load_all_modules` ends with every `.so` entry loaded whose object opens given the modules then loaded |
| `Modules.DependencyOrder` | tools/module.c:221-251 | with `a.so` listed before the `b.so` it needs, the first pass loads only `b`, the second loads `a`, the third tries nothing, and the result is true |
| `Modules.UnloadAllOf` | tools/module.c:322-336 | `unload_all_modules` is true exactly when no module is in use, and then empties the list; otherwise it stops at the first module still in use, keeping it and every module after it, and every module it unloaded had no users |
| `Modules.Without` | tools/module.c:313-319 | unloading one module takes out exactly that one and keeps the others in order |
| `Modules.InsmodRules` | tools/module.c:259-288 | `insmod NAME` succeeds exactly with one argument, a name not loaded, an object that opens given the modules loaded and an init returning 0; it then puts the module at the head with no users, and otherwise leaves the list unchanged |
| `Modules.UnloadReverseOrder` | tools/module.c:325 | modules unload from the head, the last loaded first: a later module still in use keeps an earlier one loaded |
| `Modules.InsmodTwice` | tools/module.c:268-271 | a module that `insmod` loaded is refused by a second `insmod` of the same name, with the list unchanged |
| `Modules.ModuleList.constructor` | tools/module.c:42 | the module list starts empty |
| `Modules.ModuleList.ModulePut` | tools/module.c:55-67 | the method is fatal, or changes the list, exactly as `Modules.PutRules` describes |
| `Modules.ModuleList.TryModuleGet` | tools/module.c:69-84 | an injected failure returns 0 with no change; NULL returns 1 with no change; an unknown module is fatal; otherwise it returns 1 with one more use |
| `Modules.ModuleList.LoadAllModules` | tools/module.c:207-257 | the pass loop and the entry loop compute the fixpoint `Modules.LoadAllLoadsEverything` and `Modules.LoadAllClosed` are about |
| `Modules.ModuleList.Insmod` | tools/module.c:259-288 | the command's result and new list are those `Modules.InsmodRules` describes, and `-a` loads everything |
| `Modules.ModuleList.UnloadAllModules` | tools/module.c:322-336 | the safe list walk ends with the result and list `Modules.UnloadAllOf` describes |
| `Modules.ModuleList.Rmmod` | tools/module.c:338-358 | `rmmod -a` unloads all it can; `rmmod NAME` fails for another argument count or an unknown name, and otherwise removes the first module of that name, whether in use or not |
| `Fields.FindField` | core/field.c:72-81 | the entry found belongs to that structure and name, and no entry before it does (so it is the newest); None means no entry has that structure and name |
| `Fields.Others` | core/field.c:102-109 | every remaining entry was in the list and belongs to another structure, and every entry of another structure remains |
| `Fields.AttachThenValue` | core/field.c:47-95 | after `field_attach(s, n, v)`, the field exists and its value is `v`, whatever was attached before |
| `Fields.MissingHasNoValue` | core/field.c:72-95 | a structure and name never attached have no field and no value |
| `Fields.DetachUndoesAttach` | core/field.c:47-100 | `field_detach` after `field_attach` of the same key restores the list, so an older entry of that key is visible again |
| `Fields.DetachKeepsOtherKeys` | core/field.c:97-100 | detaching one key leaves the value of every other key as it was |
| `Fields.FirstOfAt` | core/field.c:72-81 | an entry with no entry of its key before it is the one the lookup finds |
| `Fields.DetachAllRules` | core/field.c:102-109 | after `field_detach_all(s)`, `s` has no field under any name, and the lookups of every other structure are unchanged |
| `Fields.LookupExtended` | core/field.c:72-81 | an entry added at the old end of the list changes a lookup only when nothing before it matched |
| `Fields.FieldList.constructor` | core/field.c:37 | the list of fields starts empty |
| `Fields.FieldList.Attach` | core/field.c:47-70 | the new entry heads the list, in front of every older one |
| `Fields.FieldList.Find` | core/field.c:72-81 | the list walk returns the entry `Fields.FindField` describes |
| `Fields.FieldList.Exists` | core/field.c:83-86 | `field_exists` is true exactly when some entry has that structure and name |
| `Fields.FieldList.Value` | core/field.c:88-95 | `field_value` returns the value of the newest entry of that key, or NULL when there is none |
| `Fields.FieldList.Detach` | core/field.c:97-100 | `field_detach` removes the newest entry of that key, and nothing when there is none |
| `Fields.FieldList.DetachAll` | core/field.c:102-109 | the safe list walk removes exactly the entries of that structure and keeps the others in order |
| `Core.VerdictIndexFrom` | core/core.c:59-63 | the index returned names `name`, and no earlier index from `from` on does; -1 exactly when no such name comes after `from` |
| `Core.VerdictIndex` | core/core.c:55-64 | `nf_retval_by_name` returns a verdict whose name is `name`, and -1 exactly when `name` is no verdict's name |
| `Core.NfRetvalByName` | core/core.c:55-64 | the search loop returns the verdict `Core.VerdictIndex` describes |
| `Core.RetvalRoundTrip` | core/core.c:45-64 | for every verdict from `NF_DROP` to `NF_REPEAT`, `nf_retval_by_name(nf_retval(v))` is `v` |
| `Core.ErrorNamesUnknown` | core/core.c:49-52 | any other value is printed `ERROR (n)`, and that text is no verdict's name |
| `Core.Indexed` | core/core.c:337-338 | the option table copies each registered option and gives it its own index as `val` |
| `Core.DuplicateShortOptionAccepted` | core/core.c:330-331 | as written, the clash test compares a short character with the earlier entries' indices, so two options that share `-a` are accepted and the second can never be selected; the corrected test refuses them |
| `Core.GetCmdlineOptions` | core/core.c:311-342 | the loop is fatal at the first `has_arg` above 2 or the first clash of a short character or long name with an earlier option, and otherwise returns the indexed table |
| `Core.OptionFor` | core/core.c:294-309 | a value below `'0'` selects that table index; otherwise the result is the first option with that short character, or none when no option has it |
| `Core.GetCmdlineOption` | core/core.c:294-309 | the search loop returns the option `Core.OptionFor` describes |
| `Core.OptionLookupFindsOwner` | core/core.c:294-342 | in an accepted table, every option's short character leads back to that option, and so does the index `getopt_long` returns for a long option |
| `Core.Piece` | core/core.c:361-362 | each option adds its short character followed by one colon per argument kind |
| `Core.PieceColons` | core/core.c:348-362 | everything after the character is a colon |
| `Core.OptStrFits` | core/core.c:353-364 | the string built fits the `3 * n_opts + 1` bytes allocated for it, terminator included |
| `Core.GetCmdlineOptstr` | core/core.c:344-366 | the loop concatenates the pieces of the options with a short character, in table order |
| `Core.RegisterCallsOrder` | core/core.c:594-605 | `n` successful iterations register each position and then attach its location field, in position order |
| `Core.UnregisterCallsOrder` | core/core.c:613-621 | `__nf_unregister_hook_wrapper(reg, n)` detaches the fields of each of the first `n` positions and then unregisters it, in order |
| `Core.RegisterFrom` | core/core.c:594-610 | the positions visited, from `i` up to `adopted`, had no clashing owner; a run that returns 0 visits every position, and one that returns an error stops at the position whose registration returned it; a fatal run met a position owned by another module (or any owned one when the owner is NULL) |
| `Core.RegisterAllOrNothing` | core/core.c:588-611 | a run returning 0 registered every hook, in order, each with its field; a run returning an error stopped at the first registration that failed, returned that error, and unregistered every hook registered before it |
| `Core.RegisterHookWrapper` | core/core.c:588-611 | the loop over the `reg` array makes the run `Core.RegisterAllOrNothing` describes, and sets the owner of exactly the positions it visited |
| `Core.UnownedSecondHookCrashes` | core/core.c:595 | as written, the owner test checks `reg->owner`, which the first iteration has set, and then reads `reg[i].owner->name`: a second structure with no owner is dereferenced as null, while the corrected test adopts it |
| `Core.SockoptRegistration` | core/core.c:623-639 | the sockopt wrapper is fatal exactly when the structure belongs to another module; every other outcome leaves the caller owning it; only a 0 result (no injected failure and a successful `__nf_register_sockopt`) leaves it listed with its location field, and any other result, -EINTR for an injected failure, leaves the list and the fields as they were |
| `Core.SockoptRoundTrip` | core/core.c:623-646 | unregistering a structure whose registration returned 0 takes it off the list and detaches its field, restoring its state from before the registration apart from the new owner |
| `Core.Sent` | core/core.c:564-573 | `nf_send` changes only the device's transmit counters: one more packet and `len` more bytes, each modulo 2^64 |
| `Core.WrapAdd` | core/core.c:566-567 | adding to an `unsigned long` counter in two steps wraps the same as in one |
| `Core.SendsAccumulate` | core/core.c:564-573 | after a sequence of sends, the transmit counters are the starting counters plus the packet count and the byte total, modulo 2^64, and the receive counters are unchanged |
| `Core.NfSend` | core/core.c:564-573 | the method updates only the sending device, as `Core.Sent` describes |
| `Queue.EnqueueKeepsIds` | core/core.c:115-131 | an item enqueued with the next id goes to the tail, and the ids stay strictly increasing and below the next id |
| `Queue.FirstWithId` | tools/queue.c:54-56 | the item found has that id and no item before it does; None means no item has that id |
| `Queue.Removed` | tools/queue.c:63 | `list_del` takes out exactly that item and keeps the others in order |
| `Queue.Picked` | tools/queue.c:46-56 | (corrected: an empty queue picks nothing) with an id, the first item carrying it, and nothing exactly when no item does; without one, the head, and nothing for an empty queue |
| `Queue.EmptyQueueReinjectsListHead` | tools/queue.c:48-52 | as written, `queue NF_ACCEPT` on an empty queue takes the list head itself for a queued packet and reinjects a packet that does not exist; the corrected command refuses it and leaves the queue empty |
| `Queue.QueueRules` | tools/queue.c:26-68 | a bad argument count or an unknown verdict is refused with the queue unchanged; with no id the head item is reinjected with that verdict and removed; with an id, the command succeeds exactly when some item has that id; every success removes one item and reinjects its packet with the named verdict |
| `Queue.QueueKeepsIds` | tools/queue.c:54-63 | the `queue` command keeps the ids increasing, and with increasing ids the item an id selects is the only one with that id |
| `Queue.NfsimQueue.constructor` | core/core.c:72-73 | the queue starts empty with the id counter at 0 |
| `Queue.NfsimQueue.Enqueue` | core/core.c:115-131 | `enqueue_packet_to_queuenum` appends the packet with the current `queueid`, increments `queueid`, returns 0 and keeps the ids increasing |
| `Queue.NfsimQueue.Queue` | tools/queue.c:26-68 | the command's result, reinjection and new queue are those `Queue.QueueRules` describes, and the ids stay increasing |
| `TimeCmd.LastTimerAsWritten` | tools/time.c:29-35 | `find_last_timer` returns an `int`: 0 with no timers, otherwise the last timer's expiry reduced to an `int` |
| `TimeCmd.LastTimer` | tools/time.c:29-35 | (corrected) the target of `+infinity` agrees with `find_last_timer` whenever a timer is pending, and is the current time when none is |
| `TimeCmd.InfinityWithoutTimers` | tools/time.c:45-46 | as written, `time +infinity` at 5 seconds with no timer pending passes `0 - jiffies`, which as an `unsigned int` moves the clock on by almost 2^32 jiffies; the corrected command does not move it |
| `TimeCmd.Seconds` | tools/time.c:48 | `atoi(s) * HZ` is an `int` |
| `TimeCmd.TimeRules` | tools/time.c:37-72 | no argument reports the time and succeeds; more than one argument, or a leading `-`, is refused; a refused command never moves the clock |
| `TimeCmd.RelativeAdvance` | tools/time.c:47-48 | `time +N` succeeds and moves the clock on by `N * HZ` jiffies |
| `TimeCmd.AbsoluteAdvance` | tools/time.c:54-65 | `time T` is refused when `T` reads as 0 or lies in the past, and otherwise moves the clock to exactly `T * HZ` |
| `TimeCmd.InfinityAdvance` | tools/time.c:45-46 | (corrected: no pending timer leaves the clock alone) `time +infinity` succeeds, runs the clock to the last pending timer, and leaves it where it is when none is pending |
| `TimeCmd.Clock.constructor` | tools/time.c:27 | the clock starts at 0 with no timers pending |
| `TimeCmd.Clock.Time` | tools/time.c:37-72 | the command's result and the clock after its `increment_time` call are those `TimeCmd.TimeRules` and the advance lemmas describe, and the timers are unchanged |
| `Strace.StraceRules` | tools/strace.c:57-78 | `strace` succeeds exactly when it changes the flag: no argument turns it on, `off` turns it off, switching to the state already in force is refused, and any other form is refused with the flag unchanged |
| `Strace.OnThenOff` | tools/strace.c:59-75 | `strace` and then `strace off` return to the starting state, and so does the reverse order from the traced state |
| `Strace.Tracer.constructor` | tools/strace.c:64 | tracing starts off |
| `Strace.Tracer.ParseStrace` | tools/strace.c:57-78 | the command's result and the new flag are those `Strace.StraceRules` describes |
| `Hook.VerdictOf` | tools/hook.c:36-61 | the three hook functions return only `NF_ACCEPT`, `NF_DROP` or `NF_QUEUE` |
| `Hook.VerdictNamesAgree` | tools/hook.c:135-145 | a verdict name selects the hook function that returns the verdict of that name, and STOLEN and REPEAT select none |
| `Hook.UnregistrationsInOrder` | tools/hook.c:87-91 | the clean-up makes one unregistration per hook, in list order |
| `Hook.LiveOfUnregistrations` | tools/hook.c:87-91 | unregistering a list of hooks removes each of them once from the registered hooks |
| `Hook.HookKeepsRegistrations` | tools/hook.c:79-150 | when the registered hooks are those on the list, they still are after a `hook` command and after a clean-up; after `gen_ip` no hook remains registered |
| `Hook.HookRules` | tools/hook.c:95-150 | `hook` with an argument count other than 1 or 4 is refused; an unknown hook or verdict name registers nothing; a new hook goes to the front of the list and is registered with `PF_INET`, the named hook point, the priority `atoi` reads and the named verdict |
| `Hook.PostRoutingMislabelled` | tools/hook.c:72 | as written, `print_hook` lists a hook at `NF_IP_POST_ROUTING` as `IP_PRE_ROUTING` |
| `Hook.LabelsRoundTrip` | tools/hook.c:63-77 | with the label corrected, the listing reads back: a hook the command made is listed with labels that select its hook point and verdict again |
| `Hook.HookTable.constructor` | tools/hook.c:34 | the hook list starts empty, with no calls made |
| `Hook.HookTable.HookCmd` | tools/hook.c:95-150 | the command's result, new list and registration call are those `Hook.HookRules` describes, and the registrations stay in step with the list |
| `Hook.HookTable.PostCleanup` | tools/hook.c:79-93 | the clean-up always succeeds; after `gen_ip` it unregisters every hook, head first, and empties the list, and after any other command it does nothing |
| `CLib.DigitValue` | tools/gen_ip.c:542 | a character's digit value is below 10 exactly for the decimal digits, and never above 36 |
| `CLib.SkipSpaces` | tools/gen_ip.c:65 | `strtoul` skips leading blanks: it stops at the end or at a character that is not a blank |
| `CLib.SkippedAreSpaces` | tools/gen_ip.c:65 | every character skipped is a blank |
| `CLib.DigitsEnd` | tools/gen_ip.c:65 | the digits read stop at the end or at a character that is not a digit of the base |
| `CLib.ReadAreDigits` | tools/gen_ip.c:65 | every character read is a digit of the base |
| `CLib.DigitsEndOfRun` | tools/gen_ip.c:65 | a run of digits followed by a non-digit is read up to exactly that point |
| `CLib.ScanInteger` | tools/gen_ip.c:65 | when some digit converts, the end pointer lies after it and within the string |
| `CLib.StrToUL` | core/failtest.c:139 | `strtoul` returns a value within `unsigned long`; when no digit converts it returns 0 with the end pointer at the start |
| `CLib.StrToL` | tools/gen_ip.c:542 | `strtol` returns a value within `long`; when no digit converts it returns 0 with the end pointer at the start |
| `CLib.Atoi` | tools/queue.c:47 | `atoi` returns an `int` |
| `CLib.Atol` | tools/gen_ip.c:402 | `atol` returns a `long` |
| `CLib.WholeNumeral` | tools/gen_ip.c:65-69 | a text that converts as a whole holds only blanks, a sign, the `x` of a base prefix and digits |
| `CLib.NatToDecimal` | kernelenv/proc_stuff.c:628 | `%lu` prints at least one character, all of them decimal digits |
| `CLib.ValueOfDecimal` | kernelenv/proc_stuff.c:628 | the digits `%lu` prints have the value printed |
| `CLib.LeadingDigit` | kernelenv/proc_stuff.c:628 | `%lu` prints a leading `0` only for 0 |
| `CLib.DecimalAt` | core/failtest.c:139 | a decimal numeral embedded in a string and not followed by a digit is read to its end, as its value |
| `CLib.StrToULDecimal` | core/failtest.c:139 | `strtoul` in base 10 reads back what `%lu` printed, whatever non-digit follows |
| `CLib.StrToULAutoDecimal` | kernelenv/proc_stuff.c:608 | `strtoul` in base 0 reads back what `%lu` printed, up to a blank or the end |
| `CLib.ZeroAutoBase` | kernelenv/proc_stuff.c:608 | a lone `0` in base 0 is read in base 8 and gives 0 |
| `CLib.StrToLNegative` | tools/gen_ip.c:542 | `strtol` reads back a negative decimal numeral with its sign |
| `CLib.StrToLDecimal` | tools/gen_ip.c:542 | `strtol` in base 10 reads back what `%ld` printed, whatever non-digit follows |
| `CLib.FindFrom` | core/failtest.c:229 | the index found is an occurrence of the needle and no earlier index from `i` on is; None means no occurrence from `i` on |
| `CLib.StrStr` | core/failtest.c:229 | `strstr` returns the first occurrence of the needle, or NULL when there is none |
| `CLib.StrChr` | tools/route.c:41 | `strchr` returns the first index holding the character, or NULL when none does |
| `CLib.AtoiDecimal` | tools/queue.c:47 | `atoi` reads back every `int` from its decimal text, whatever non-digit follows it |
| `CLib.AtolDecimal` | tools/gen_ip.c:402 | `atol` reads back every `long` from its decimal text, whatever non-digit follows it |

## Left out

- Process duplication and waiting (`fork`, `waitpid`, `do_fork`): the side of a fork and the child's exit are parameters, so the model has no concurrency.
- Sockets, pipes, `select`, descriptor passing over SCM_RIGHTS, and `exec`: a channel is a sequence of frames, and descriptors are numbers.
- `Bridge.Channel.WaitForOutput`: the readiness waits are a finite script, and the method returns `Blocked` when the script runs out before both descriptors close. The replies it sends while waiting are stated only as added after the earlier ones.
- `dlopen`/`dlsym`: whether a module's object opens and what its init returns are oracles. `strends` is a suffix test. `lsmod` only prints. `__MOD_INC_USE_COUNT`/`__MOD_DEC_USE_COUNT` belong to older kernels and are not part of this model.
- A module's exit function and the running of pending timers on unload are not modelled. Unloading removes the module from the list.
- `talloc` ownership, destructors and leak checking. `field_attach_static` differs from `field_attach` only in its talloc parent, so both are `Fields.FieldList.Attach`.
- The text of every log message, `print_hook`, `ifconfig` and `route` listings, strace output, `failpath_string_for_line` and `warn_failure`. Only whether the excessive-fail warning fires is modelled.
- IP, TCP, UDP and ICMP checksums, the TCP `urg_ptr`/`check` fields, `send_packet` and its skb construction, the `IF=` interface prefix of `gen_ip`, the copying of the payload into place, and the `dump_flags` text.
- Byte order: addresses and header fields are kept as the numbers they denote, so `htons`/`htonl` are the identity.
- `GenIp.HexDigits`: `hexchar`'s `sscanf("%02x")` is modelled for hexadecimal digits only. Its skipping of blanks and its sign are not modelled, so `\x` followed by a blank or a sign is refused.
- The 1024-byte argument buffers and the `argv` limit of the command line are not modelled. `strtok` is a split on its separator.
- `inet_atou32`, `nf_getsockopt`/`nf_setsockopt`, `nf_reinject`, `ip_rcv` and `__nf_register_hook` are oracles, or calls recorded as values.
- `IfConfig.Interfaces.Ifconfig`: the calls `__call_inetaddr_notifier(NETDEV_UP, …)` and `__call_inetaddr_notifier(NETDEV_DOWN, …)` (tools/ifconfig.c:73, 190) and `add_route_for_device` (tools/ifconfig.c:143) are not modelled. The model neither notifies nor adds the device's route, and the route table of `Route` is not changed by `ifconfig`.
- `increment_time` is modelled as advancing `jiffies` by its argument. The firing of timers is not modelled.
- `tui_do_command`, which `tcpsession` uses to run `gen_ip` and `expect`, is an oracle saying whether the command succeeded.
- `route del` frees the entry with `talloc_free` without a visible `list_del`. The model removes the entry from the table, as the destructor evidently intends.
- `Route.CountMaskBits`: for the mask `255.255.255.255` the C loop tests `maskaddr << 32` once 32 bits are counted (tools/route.c:85-86), a shift that is undefined in C. The model stops at 32 and never evaluates that shift. Whatever the shift gives, `maxbits--` then ends the loop, so the count is 32 either way.
- `IfConfig.Interfaces.CreateDevice`: the `int` counter `ifindex_counter` is unbounded, so its overflow is not modelled.
- `Queue.NfsimQueue.Enqueue`: `queueid` is unbounded, so its `int` overflow is not modelled.
- `FailTest.ReplayRoundTrip`: proved for script lines below 2^31, because `failpath_string` prints an `unsigned int` line with `%i`.
- `Sysctl.Window`: positions past the end of the written text read as the terminating NUL.
- `Sysctl.PrintedValueReadsBack`: states the round trip through the text for one-value vectors other than INT_MIN. INT_MIN prints as `-18446744071562067968`; with its terminator that needs 22 bytes of the 21-byte `buf`, and a write copies only 20 characters of it.
- `Sysctl.PrintedValueStored`: the same two limits, one value and not INT_MIN.
- `Modules.ModuleList.LoadAllModules`: `dlopen` is an oracle of the name and the modules already loaded; the dependency lemmas take it to be monotone (`MonotoneOpens`: loading a module never makes another object fail to open). What `__module_init` returns depends on the name only.
- `proc_file_read`, `proc_file_write` and `nfsim_proc_open`/`nfsim_proc_cat`/`nfsim_proc_write`: these move bytes between a file and its handler, and are not modelled.
- `ProcTable.RegisterFrom`: a `ctl_table` is a value. The C code writes `table->de` in place, and the model returns the table with `de` and `child` written. Which other tables share those entries is therefore not modelled.
- `ProcTable.RegisterEntry`: `de->proc_fops = &proc_sys_file_operations` is not modelled, since file operations are not. `de->data` holds a number standing for the table entry's address.
- `ProcTable.RegisterEntry`: `create_proc_entry` is called with failure injection off, because `register_sysctl_table` raises `suppress_failtest` around the walk (kernelenv/proc_stuff.c:519-521). `register_proc_table` called on its own with injection on is not modelled.
- `ProcTable.Descend`: with no `proc_handler` and a NULL `child`, `register_proc_table` has already called `barf`. An entry with a handler, a NULL child and the directory bit in its table mode is created as a directory, and the descent dereferences its NULL child. The model makes that fatal. In `unregister_proc_table`, a NULL procname passed to `remove_proc_entry`, and a `de` that names no live entry, are fatal too.
- `ProcTable.RegisterSysctlTable`: the talloc of the header and its `talloc_free` in `unregister_sysctl_table` are not modelled. The header is the registered table itself. `insert_at_head` is ignored, as it is in the C code.
- `ProcTable.TableRoundTrip`: is stated for a fresh table none of whose directories `root` already has (`FreshFrom`, `AbsentFrom`). A table that reuses an existing directory is not covered. It states that every entry that was there before is as it was, and that every `de` is cleared. The entries the registration added stay in the map of entries, unreachable, as `RemoveProcEntry` leaves them.
- `ProcFs.ProcRoot.RemoveProcEntry`: the unlinked entry stays in the map of entries, unreachable. Freeing it is talloc's business.
- `Core.RegisterHookWrapper`: with no hooks (`n == 0`) the C code returns an uninitialised `ret`. The model returns 0. The owner test is the corrected `OwnerClash` on each structure; as written it tests `reg->owner` and dereferences `reg[i].owner` (`OwnerFailsAsWritten`). The `barf` message, which prints a name with `%u`, is not modelled.
- `Core.GetCmdlineOptstr`: the `tmpstr[3]` buffer holds a character and at most one colon plus the terminator, so `has_arg == 2` would overflow it. The model requires `has_arg` from 0 to 2 and builds the full piece.
- `Core.OptionFor`: an index at or above `'0'` from `getopt_long` (a table of 48 or more options) goes to the short-option search. The model requires an index below `'0'` to name a table entry.
- `Core.NfSend`: `skb->dev` is an index into the interface list, and freeing the skb is not modelled.
- `main`, `getopt_long` and the option handlers, `grab_file`, the IPv6 stubs, and the output-only commands (`info`, `version`, `config`, `echo`, the `/proc` printer, the `iptables` runner).
- The interposer's `_init` exits when `NFSIM_FAKESOCK_FD` is not set. The model starts from the state `_init` leaves once it has that descriptor.
- kernelenv.h's locking, RCU and per-CPU macros, struct layouts, and the 32-bit `do_div` path through `__div64_32`. `ALIGN` is modelled as rounding up to a multiple, which is what its mask expression computes for a power of two.
- `Interposer.Peer.FakeSyscall`: uses the corrected payload check `PayloadComplete`, which compares the payload read with the reply's own `len`; the check as written is `PayloadCompleteAsWritten`.
- `Interposer.Peer.Getsockopt`: goes through `FakeSyscall`, so it uses the same corrected payload check.
- `Interposer.Peer.Setsockopt`: goes through `FakeSyscall`, so it uses the same corrected payload check.
- `FailTest.Controller.ShouldIFailOnce`: in replay it looks for the location in the part of the path already replayed (`OnceSeen`); the check as written, `OnceSeenAsWritten`, looks only at the first occurrence anywhere in the path.
- `ProcFs.ProcRoot.CreateProcEntry`: stores the final component of the name (`ProcCreate`); as written the whole name is stored (`ProcCreateAsWritten`).
- `Sysctl.DoProcDointvec`: takes a leading minus off `left` once, so it reads the values after a negative one; as written the sign is taken off twice (`Dointvec` with `twice`).
- `Sysctl.WriteVector`: counts the sign once, as `DoProcDointvec` does.
- `Sysctl.WriteOutcome`: counts the sign once, as `DoProcDointvec` does. `*ppos` advances without 64-bit wrap-around.
- `GenIp.DecodeOne`: after `\x` it steps past the hexadecimal digits `hexchar` read (`Unescape`); as written it always steps past two characters (`UnescapeAsWritten`).
- `GenIp.CopyPrintable`: decodes through `DecodeOne`, so it uses the same corrected `\x` step.
- `GenIp.GenIpDataLength`: decodes through `DecodeOne`, so it uses the same corrected `\x` step.
- `GenIp.CopyData`: decodes through `DecodeOne`, so it uses the same corrected `\x` step.
- `GenPacket.DataOf`: the payload is decoded with the corrected `\x` step.
- `GenPacket.UdpOf`: the payload is decoded with the corrected `\x` step.
- `GenPacket.ParseUdp`: the payload is decoded with the corrected `\x` step.
- `GenPacket.DataField`: the payload is decoded with the corrected `\x` step.
- `GenPacket.NumberField`: a `SEQ=`/`ACK=` text that is no number is refused (`ParseTcpNumber`); as written `parse_tcpnumber` never refuses (`ParseTcpNumberAsWritten`).
- `GenPacket.TcpNumbers`: uses the corrected `ParseTcpNumber`.
- `GenPacket.TcpOf`: uses the corrected `ParseTcpNumber` and the corrected `\x` step.
- `GenPacket.ParseTcp`: uses the corrected `ParseTcpNumber` and the corrected `\x` step.
- `GenPacket.PacketOf`: uses the corrected `ParseTcpNumber` and the corrected `\x` step.
- `GenPacket.ParsePacket`: uses the corrected `ParseTcpNumber` and the corrected `\x` step.
- `IfConfig.Interfaces.Ifconfig`: after `mask NETMASK` it steps past both arguments; as written it counts one of them (`SetDeviceAsWritten`).
- `TcpSession.DataLength`: the payload is decoded with the corrected `\x` step.
- `TcpSession.TcpSessions.SendData`: the payload is decoded with the corrected `\x` step.
- `TcpSession.TcpSessions.TcpSession`: `LENCHANGE` without an open session is refused; as written it dereferences NULL (`TcpSessionAsWritten`). `datalen + lenchange` is an unbounded sum, so its `int` overflow is not modelled.
- `Core.GetCmdlineOptions`: the short-option clash test compares the short characters of the input table (`Options`); as written it compares with the output table, whose `val` already holds an index (`OptionsAsWritten`).
- `Queue.NfsimQueue.Queue`: with no id, an empty queue is refused; as written the list head is taken as an item (`QueueAsWritten`).
- `TimeCmd.Clock.Time`: `+infinity` with no timer pending leaves the clock where it is (`LastTimer`); as written the clock moves by `0 - jiffies` (`LastTimerAsWritten`, `InfinityStepAsWritten`).
- `TimeCmd.InfinityAdvance`: states the corrected `+infinity`.
- `KernelEnv.MsecsToJiffies`: rounds up without the `unsigned int` wrap of `m * HZ + 999`; as written the sum wraps (`MsecsToJiffiesAsWritten`).
- `Core.SockoptRegistration`: `__nf_register_sockopt` is an oracle, taken to list the structure exactly when it returns 0.
- `GenIp.Copied`: `strncpy(buf, dotted, 19)` into the uninitialised `buf[20]` writes no NUL when the text has 19 characters or more, so the parse would read `buf[19]`, which was never set. The model ends the copy after its 19 characters.
- `IfConfig.DeviceName`: `strncpy(dev->name, name, IFNAMSIZ)` writes no NUL when the name has 16 characters or more, and the `talloc`ed device is not zeroed. The model ends the name after its 16 characters, and every comparison of names is bounded by 16 anyway.

## Findings

| source | as written | input that shows it | evidently intended | confidence | as-written member | corrected member |
|---|---|---|---|---|---|---|
| core/failtest.c:229-232 | the at-most-once replay check looks only at the first occurrence of the location anywhere in the original path | the path `[kab]:1:S[ab]:1:F[z]:1:F` replayed, with a second `should_i_fail_once("ab")` once the cursor has passed `[ab]`: the first `ab` is inside `[kab]`, so the call meets the `[z]` token and the replay is fatal | a bracketed `[loc]` token anywhere before the cursor means the location was already tried, and the answer is false | not executed | `FailTest.OnceSeenAsWrittenMissesToken` | `FailTest.OnceSeenRecorded` |
| kernelenv/include/kernelenv.h:258-263 | `m * HZ + 999` is computed in `unsigned int` and wraps | `msecs_to_jiffies(50000000)` gives 705033 | 5000000, the rounded-up number of jiffies, with the saturation at `MAX_JIFFY_OFFSET` above `jiffies_to_msecs(MAX_JIFFY_OFFSET)` kept | not executed | `KernelEnv.MsecsToJiffiesWraps` | `KernelEnv.MsecsToJiffies` |
| core/fakesockopt.c:274 | the payload read of a reply is compared with the request's `len`, which `fake_syscall` set to 0 | a COPY_TO_USER reply whose header says 4 bytes but whose payload read returns none | the read is compared with the reply's own `len`, and a short read is refused | not executed | `Interposer.TruncatedPayloadPasses` | `Interposer.PayloadComplete` |
| kernelenv/proc_stuff.c:239-240 | `proc_create` stores the full name it was given but the length of its last component | `create_proc_entry("net/foo", 0444, NULL)`, then looking up `/proc/net/foo` finds nothing | the entry is named `foo`, with length 3, and the lookup finds it | not executed | `ProcFs.CreatedEntryNotFoundAsWritten` | `ProcFs.CreatedEntryFound` |
| kernelenv/proc_stuff.c:601-616 | a leading minus is taken off `left` when it is read, and again as part of the numeral's length | writing `-5 7` to a two-value vector stores `-5` and leaves the second value 0 | both values are stored: `-5` and `7` | not executed | `Sysctl.SignCountedTwice` | `Sysctl.SignCountedOnce` |
| tools/gen_ip.c:163-164 | after `\x` the decoder always skips two characters, even when `hexchar` read only one digit | `\x4z` decodes to the byte 4 alone, and the `z` is lost | `\x4z` decodes to the byte 4 followed by `z` | not executed | `GenIp.SingleHexDigitSwallows` | `GenIp.UnescapeEscape` |
| tools/gen_ip.c:422-426 | the failure test `i < 0` on an `unsigned int` never fires | the sequence number `SYN` is accepted as 0xffffffff | a text that is no number is refused | not executed | `GenIp.TcpNumberJunkAccepted` | `GenIp.TcpNumberRoundTrip` |
| tools/ifconfig.c:82-105 | after `mask NETMASK`, `set_device` steps past two arguments but counts only one | `ifconfig eth0 10.0.0.1 mask 255.0.0.0` reads one argument past the end as the broadcast address | the netmask is set and the command succeeds | not executed | `IfConfig.MaskWithoutBroadcast` | `IfConfig.Configured` |
| tools/tcpsession.c:303-316 | `LENCHANGE` stores through `curr` without checking that a session is open | `tcpsession LENCHANGE 5` before any `OPEN` dereferences NULL | the command is refused and no session is created | not executed | `TcpSession.LenchangeWithoutSession` | `TcpSession.LenchangeRules` |
| core/core.c:330-331 | the short-option clash test compares with the earlier entries of the output table, whose `val` already holds their index | two options that share the short character `a` are accepted, and the second can never be selected by `-a` | a shared short character is fatal | not executed | `Core.DuplicateShortOptionAccepted` | `Core.OptionLookupFindsOwner` |
| core/core.c:595 | the owner test checks `reg->owner`, which the first iteration has set, and then reads `reg[i].owner->name` | registering two hook structures that have no owner yet dereferences a null owner at the second | every structure without an owner is adopted | not executed | `Core.UnownedSecondHookCrashes` | `Core.RegisterAllOrNothing` |
| tools/queue.c:48-52 | with no id, the head of `nfsim_queue` is taken as an item without checking that the queue is empty | `queue NF_ACCEPT` on an empty queue reinjects the list head as if it were a packet | the command is refused and the queue is unchanged | not executed | `Queue.EmptyQueueReinjectsListHead` | `Queue.QueueRules` |
| tools/time.c:29-46 | `find_last_timer` returns 0 when no timer is pending, and `+infinity` passes `0 - jiffies` | `time +infinity` at 5 seconds with no timer pending moves the clock on by almost 2^32 jiffies | the clock stays where it is | not executed | `TimeCmd.InfinityWithoutTimers` | `TimeCmd.InfinityAdvance` |
| tools/hook.c:72 | `print_hook` labels `NF_IP_POST_ROUTING` as `IP_PRE_ROUTING` | `hook IP_POST_ROUTING 0 ACCEPT` is listed as an `IP_PRE_ROUTING` hook | the label `IP_POST_ROUTING` | not executed | `Hook.PostRoutingMislabelled` | `Hook.LabelsRoundTrip` |
