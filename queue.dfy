/**
 * The simulator's userspace packet queue: packets a hook answered with
 * `NF_QUEUE` are appended with a fresh id, and the `queue` command
 * reinjects one of them with a chosen verdict.
 */
module Queue {
  import opened Wrappers
  import opened CLib
  import Core

  /** `struct nfsim_queueitem`: the id and the identities of the packet and
    * of its hook information. */
  datatype QueueItem = QueueItem(id: int, skb: nat, info: nat)

  /** A call `nf_reinject(skb, info, verdict)`. */
  datatype Reinjection = Reinjection(skb: nat, info: nat, verdict: int)

  /** Ids increase from head to tail and all lie below the next id. */
  predicate IdsIncreasing(items: seq<QueueItem>, next: int)
  {
    (forall i, j :: 0 <= i < j < |items| ==> items[i].id < items[j].id) &&
    (forall i :: 0 <= i < |items| ==> items[i].id < next)
  }

  /** `enqueue_packet_to_queuenum`: the item takes the next id and goes to
    * the tail. */
  function Enqueued(items: seq<QueueItem>, next: int, skb: nat, info: nat): seq<QueueItem>
  {
    items + [QueueItem(next, skb, info)]
  }

  /** Enqueueing keeps the ids strictly increasing. */
  lemma EnqueueKeepsIds(items: seq<QueueItem>, next: int, skb: nat, info: nat)
    requires IdsIncreasing(items, next)
    ensures IdsIncreasing(Enqueued(items, next, skb, info), next + 1)
    ensures Enqueued(items, next, skb, info)[|items|].id == next
  {
  }

  /** The first item with id `id` at or after `from`. */
  function FirstWithId(items: seq<QueueItem>, id: int, from: nat): (r: Option<nat>)
    requires from <= |items|
    ensures r.Some? ==> from <= r.value < |items| && items[r.value].id == id
    ensures r.Some? ==> forall k :: from <= k < r.value ==> items[k].id != id
    ensures r.None? ==> forall k :: from <= k < |items| ==> items[k].id != id
    decreases |items| - from
  {
    if from == |items| then None
    else if items[from].id == id then Some(from)
    else FirstWithId(items, id, from + 1)
  }

  /** `list_del`: the item at `i` taken out, the others in order. */
  function Removed(items: seq<QueueItem>, i: nat): (r: seq<QueueItem>)
    requires i < |items|
    ensures |r| == |items| - 1
    ensures forall k :: 0 <= k < i ==> r[k] == items[k]
    ensures forall k :: i <= k < |r| ==> r[k] == items[k + 1]
  {
    items[..i] + items[i + 1..]
  }

  /** What the `queue` command did: its result, the queue after it, and
    * the reinjection it made. */
  datatype Queued = Queued(ok: bool, items: seq<QueueItem>, injected: Option<Reinjection>)

  /** The item a `queue verdict [id]` command picks: the first with that
    * id, or without an id the head; None for an empty queue. */
  function Picked(items: seq<QueueItem>, args: seq<string>): (r: Option<nat>)
    requires 2 <= |args| <= 3
    ensures r.Some? ==> r.value < |items|
    ensures |args| == 2 ==> r == if |items| == 0 then None else Some(0)
    ensures |args| == 3 ==> (r.Some? <==> exists k :: 0 <= k < |items| && items[k].id == Atoi(args[2]))
    ensures |args| == 3 && r.Some? ==>
      items[r.value].id == Atoi(args[2]) && forall k :: 0 <= k < r.value ==> items[k].id != Atoi(args[2])
  {
    if |args| == 3 then FirstWithId(items, Atoi(args[2]), 0)
    else if |items| == 0 then None
    else Some(0)
  }

  /** `queue(argc, argv)`. The listing form returns 0, that is false. An
    * empty queue with no id given is refused. */
  function QueueOf(items: seq<QueueItem>, args: seq<string>): Queued
    requires |args| >= 1
  {
    if |args| == 1 || |args| > 3 then Queued(false, items, None)
    else
      var verdict := Core.VerdictIndex(args[1]);
      if verdict < 0 then Queued(false, items, None)
      else
        match Picked(items, args)
        case None => Queued(false, items, None)
        case Some(i) => Queued(true, Removed(items, i), Some(Reinjection(items[i].skb, items[i].info, verdict)))
  }

  /** `queue` as written: with no id it takes `nfsim_queue.next` as the
    * head item; on an empty list that is the list head itself, and the
    * reinjection reads a packet that does not exist (None). */
  function QueueAsWritten(items: seq<QueueItem>, args: seq<string>): Option<Queued>
    requires |args| >= 1
  {
    if |args| == 2 && Core.VerdictIndex(args[1]) >= 0 && |items| == 0 then None
    else Some(QueueOf(items, args))
  }

  /** `queue NF_ACCEPT` on an empty queue: undefined as written, refused
    * with the queue unchanged by the corrected command. */
  lemma EmptyQueueReinjectsListHead()
    ensures QueueAsWritten([], ["queue", "NF_ACCEPT"]).None?
    ensures QueueOf([], ["queue", "NF_ACCEPT"]) == Queued(false, [], None)
  {
    assert Core.VerdictNames[1] == "NF_ACCEPT";
  }

  /** The rules of the `queue` command. */
  lemma QueueRules(items: seq<QueueItem>, args: seq<string>)
    requires |args| >= 1
    ensures var q := QueueOf(items, args);
      (|args| == 1 || |args| > 3 ==> q == Queued(false, items, None)) &&
      (2 <= |args| <= 3 && Core.VerdictIndex(args[1]) < 0 ==> q == Queued(false, items, None))
    ensures var q := QueueOf(items, args);
      |args| == 2 && Core.VerdictIndex(args[1]) >= 0 && |items| > 0 ==>
        q == Queued(true, items[1..], Some(Reinjection(items[0].skb, items[0].info, Core.VerdictIndex(args[1]))))
    ensures var q := QueueOf(items, args);
      |args| == 3 && Core.VerdictIndex(args[1]) >= 0 ==>
        (q.ok <==> exists k :: 0 <= k < |items| && items[k].id == Atoi(args[2])) &&
        (!q.ok ==> q.items == items && q.injected.None?)
    ensures var q := QueueOf(items, args);
      q.ok ==>
        exists i :: 0 <= i < |items| && q.items == Removed(items, i) && q.injected == Some(Reinjection(items[i].skb, items[i].info, Core.VerdictIndex(args[1])))
  {
    if 2 <= |args| <= 3 && Core.VerdictIndex(args[1]) >= 0 {
      var p := Picked(items, args);
      if p.Some? {
        assert QueueOf(items, args).items == Removed(items, p.value);
      }
    }
  }

  /** With increasing ids, the item a `queue verdict id` command reinjects
    * is the only one with that id, and the queue stays increasing. */
  lemma QueueKeepsIds(items: seq<QueueItem>, args: seq<string>, next: int)
    requires |args| >= 1 && IdsIncreasing(items, next)
    ensures IdsIncreasing(QueueOf(items, args).items, next)
    ensures |args| == 3 && QueueOf(items, args).ok ==>
      forall k :: 0 <= k < |items| && items[k].id == Atoi(args[2]) ==> QueueOf(items, args).items == Removed(items, k)
  {
    if 2 <= |args| <= 3 && Core.VerdictIndex(args[1]) >= 0 {
      var p := Picked(items, args);
      if p.Some? {
        RemovedKeepsIds(items, next, p.value);
        assert QueueOf(items, args).items == Removed(items, p.value);
      }
    }
  }

  /** Taking an item out keeps the ids increasing. */
  lemma RemovedKeepsIds(items: seq<QueueItem>, next: int, i: nat)
    requires i < |items| && IdsIncreasing(items, next)
    ensures IdsIncreasing(Removed(items, i), next)
  {
    var r := Removed(items, i);
    assert forall k :: 0 <= k < |r| ==> r[k] == items[if k < i then k else k + 1];
  }

  /** `nfsim_queue` and the `queueid` counter. */
  class NfsimQueue {
    var items: seq<QueueItem>
    var queueid: int

    ghost predicate Valid()
      reads this
    {
      IdsIncreasing(items, queueid)
    }

    constructor ()
      ensures items == [] && queueid == 0 && Valid()
    {
      items := [];
      queueid := 0;
    }

    /** `enqueue_packet_to_queuenum`, which always returns 0. */
    method Enqueue(skb: nat, info: nat) returns (r: int)
      modifies this
      ensures r == 0
      ensures items == Enqueued(old(items), old(queueid), skb, info) && queueid == old(queueid) + 1
      ensures old(Valid()) ==> Valid()
    {
      if IdsIncreasing(items, queueid) {
        EnqueueKeepsIds(items, queueid, skb, info);
      }
      items := items + [QueueItem(queueid, skb, info)];
      queueid := queueid + 1;
      return 0;
    }

    /** `queue(argc, argv)`; `injected` is the `nf_reinject` call made. */
    method Queue(args: seq<string>) returns (ok: bool, injected: Option<Reinjection>)
      requires |args| >= 1
      modifies this
      ensures Queued(ok, items, injected) == QueueOf(old(items), args)
      ensures queueid == old(queueid)
      ensures old(Valid()) ==> Valid()
    {
      if IdsIncreasing(items, queueid) {
        QueueKeepsIds(items, args, queueid);
      }
      if |args| == 1 || |args| > 3 {
        return false, None;
      }
      var verdict := Core.NfRetvalByName(args[1]);
      if verdict < 0 {
        return false, None;
      }
      var at: Option<nat> := None;
      if |args| == 3 {
        var packetno := Atoi(args[2]);
        var i := 0;
        while i < |items|
          invariant i <= |items| && FirstWithId(items, packetno, i) == FirstWithId(items, packetno, 0)
        {
          if items[i].id == packetno {
            at := Some(i);
            break;
          }
          i := i + 1;
        }
      } else if |items| > 0 {
        at := Some(0);
      }
      assert at == Picked(items, args);
      if at.None? {
        return false, None;
      }
      var item := items[at.value];
      injected := Some(Reinjection(item.skb, item.info, verdict));
      assert QueueOf(items, args) == Queued(true, Removed(items, at.value), injected);
      items := items[..at.value] + items[at.value + 1..];
      ok := true;
    }
  }
}
