/**
 * The two sides of a kernel copy put together: the simulator's request, the
 * interposer serving it, and the simulator handling the reply.
 */
module CopyFidelity {
  import opened Wrappers
  import opened Wire
  import opened Bridge
  import opened Interposer

  /** `copy_to_user` of `n` kernel bytes at `from` to the program's `to`,
    * then `copy_from_user` of the same `n` program bytes back to the kernel
    * at `back`: both requests are served, the first reply changes nothing in
    * the kernel, and afterwards the kernel holds at `back` exactly the bytes
    * it had at `from`. */
  lemma CopyRoundTrip(kmem: Memory, umem: Memory, from: nat, to: nat, back: nat, n: nat, strace: bool,
                      getsockopt: Args -> SockoptAnswer, setsockopt: Args -> int)
    requires Mapped(kmem, from, n) && Mapped(umem, to, n)
    ensures var out := ToUserRequest(to, from, n, kmem);
      var s := ServeCopy(umem, out);
      && PayloadComplete(out) && s.Served?
      && Handle(Whole(s.reply), strace, false, kmem, getsockopt, setsockopt) == Reacted(None, kmem, None)
      && var ask := FromUserRequest(back, to, n);
         var s2 := ServeCopy(s.umem, ask);
         && PayloadComplete(ask) && s2.Served? && s2.umem == s.umem && PayloadComplete(s2.reply)
         && var h := Handle(Whole(s2.reply), strace, false, kmem, getsockopt, setsockopt);
            && h.Reacted? && h.reply == None
            && Mapped(h.kmem, back, n) && Load(h.kmem, back, n) == Load(kmem, from, n)
  {
    var out := ToUserRequest(to, from, n, kmem);
    var s := ServeCopy(umem, out);
    var ask := FromUserRequest(back, to, n);
    var s2 := ServeCopy(s.umem, ask);
    assert Load(s.umem, to, n) == Load(kmem, from, n);
    HandleCopyFromUser(s2.reply, strace, false, kmem, getsockopt, setsockopt);
    assert s2.reply.payload[..n] == s2.reply.payload;
  }
}
