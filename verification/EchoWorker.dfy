/** The echo worker as the program runs it: one object over the pool and the two queue objects. */
module EchoObject {
  import opened Common
  import opened Mempool
  import opened RxRing
  import opened TxRing
  import opened RxQueueObject
  import opened TxQueueObject
  import opened Driver
  import opened Echo

  class EchoWorker {
    const pool: PacketPool
    const rx: RxQueue
    const tx: TxQueue
    const bufs: array<Packet>
    var ringHead: nat
    var workHead: nat
    var ringTail: nat
    var ringEmptySlots: nat
    var unprocessedWorkCount: nat
    var unsentWorkCount: nat
    var unsentFeedbackCount: nat
    ghost var view: Worker

    ghost function Repr(): set<object> {
      {this, pool, pool.freeStack, pool.refCount, rx, rx.slots, rx.cpl, tx, tx.slots, tx.cpl, bufs}
    }

    ghost predicate Objects()
      reads pool, pool.freeStack, pool.refCount, rx, rx.slots, rx.cpl, tx, tx.slots, tx.cpl
    {
      && pool.Valid() && rx.Valid() && tx.Valid() && bufs.Length == 128
      && rx.slots != tx.slots && rx.cpl != tx.cpl
    }

    /** The counters and the array are those of a ring. */
    ghost predicate RingCoupled(r: Ring)
      reads this, bufs
    {
      r == Ring(Bufs(bufs[..]), ringHead, workHead, ringTail, ringEmptySlots,
                unprocessedWorkCount, unsentWorkCount, unsentFeedbackCount, r.received, r.posted)
    }

    /** The objects agree with the view. */
    ghost predicate Coupled()
      reads Repr()
    {
      && Objects()
      && view.sys.pool == pool.View() && view.sys.rx == rx.view && view.sys.tx == tx.view
      && RingCoupled(view.ring)
    }

    ghost predicate Valid()
      reads Repr()
    {
      Coupled() && EchoInv(view)
    }

    /** A fresh pool of 4096 entries, fresh queues, and `init_worker_ring`. */
    constructor ()
      ensures Valid() && EchoInit(view)
    {
      hide PoolInv, Blank, TxBlank, RxQueue.Valid, TxQueue.Valid, EchoInv, EchoInit, Bufs, Coupled, Objects;
      pool := new PacketPool(4096);
      rx := new RxQueue();
      tx := new TxQueue();
      bufs := new Packet[128](_ => Packet(0, 0));
      ringHead, workHead, ringTail, ringEmptySlots := 0, 0, 0, 128;
      unprocessedWorkCount, unsentWorkCount, unsentFeedbackCount := 0, 0, 0;
      new;
      view := Worker(Sys(pool.View(), rx.view, tx.view, multiset{}), BlankRing(Bufs(bufs[..])));
      FreshStart(view, bufs[..]);
      assert Coupled() by { FreshlyCoupled(); }
      assert Valid() by { NowValid(); }
    }

    lemma FreshlyCoupled()
      requires pool.Valid() && rx.Valid() && tx.Valid() && bufs.Length == 128
      requires rx.slots != tx.slots && rx.cpl != tx.cpl
      requires ringHead == workHead == ringTail == 0 && ringEmptySlots == 128
      requires unprocessedWorkCount == unsentWorkCount == unsentFeedbackCount == 0
      requires view == Worker(Sys(pool.View(), rx.view, tx.view, multiset{}), BlankRing(Bufs(bufs[..])))
      ensures Coupled()
    {
      hide Bufs, PacketPool.Valid, RxQueue.Valid, TxQueue.Valid;
    }

    lemma NowValid()
      requires Coupled() && EchoInv(view)
      ensures Valid()
    {
      hide EchoInv, Coupled;
    }

    /** Receive up to `size` packets into the array from the ring head on. */
    method ReceiveInto(size: nat, ghost o: Received) returns (ok: bool, num: nat)
      requires Objects() && PoolInv(pool.View()) && RxInv(rx.view) && ringHead + size <= 128
      requires o.Received? && o == RxRing.Receive(pool.View(), rx.view, size) && |o.packets| <= size
      modifies rx, rx.slots, rx.cpl, bufs, pool`freeStackTop, pool.refCount
      ensures ok && Objects() && num == |o.packets|
      ensures pool.View() == o.pool && rx.view == o.rx && tx.view == old(tx.view)
      ensures Bufs(bufs[..]) == Splice(Bufs(old(bufs[..])), ringHead, Bufs(o.packets))
    {
      hide RxRing.Receive, RxQueue.Valid, TxQueue.Valid, PacketPool.Valid, RxInv, PoolInv;
      ghost var before := bufs[..];
      ok, num := rx.Receive(pool, bufs, ringHead, size);
      SpliceBufs(before, bufs[..], ringHead, o.packets);
    }

    /** Receive `size` packets into the ring and account for them. */
    method Fetch(size: nat) returns (ok: bool, num: nat)
      requires Valid()
      requires view.ring.ringHead < 128 && view.ring.empty <= 128 && 0 < size == PullSize(view.ring)
      modifies Repr()
      ensures ok && Valid() && Some(view) == Pull(old(view))
    {
      hide EchoInv, RxRing.Receive, Pull, Objects, RxInv, PoolInv, Bufs;
      PullKeeps(view);
      PullMeans(view);
      ghost var next := Pull(view).value;
      ok, num := ReceiveInto(size, RxRing.Receive(view.sys.pool, view.sys.rx, size));
      unprocessedWorkCount := unprocessedWorkCount + num;
      ringEmptySlots := ringEmptySlots - num;
      ringHead := (ringHead + num) % 128;
      view := next;
    }

    /** `if_pull_rx`: the abort on a dry pool is never taken. */
    method PullRx() returns (ok: bool, num: nat)
      requires Valid()
      modifies Repr()
      ensures ok && Valid() && Some(view) == Pull(old(view))
    {
      PullMeans(view);
      hide EchoInv, RxRing.Receive, Pull, RxQueue.Valid, TxQueue.Valid, PacketPool.Valid;
      ok, num := true, 0;
      if 128 - ringEmptySlots >= 5 {
        return;
      }
      if ringEmptySlots < 16 {
        return;
      }
      var rounded := 128 - ringHead;
      var size := if 16 > rounded then rounded else 16;
      size := if size > ringEmptySlots then ringEmptySlots else size;
      if size > 0 {
        ok, num := Fetch(size);
      }
    }

    /** `if_do_work`, as far as the ring is concerned. */
    method DoWork()
      requires Valid()
      modifies this
      ensures Valid() && view == old(view).(ring := RingWork(old(view).ring))
    {
      hide EchoInv, Objects, Bufs;
      WorkKeeps(view);
      if unprocessedWorkCount > 0 {
        unprocessedWorkCount := unprocessedWorkCount - 1;
        unsentFeedbackCount := unsentFeedbackCount + 1;
        unsentWorkCount := unsentWorkCount + 1;
        workHead := (workHead + 1) % 128;
      }
      view := view.(ring := RingWork(view.ring));
    }

    /** `if_send_feedback`. */
    method SendFeedback()
      requires Valid()
      modifies this
      ensures Valid() && view == old(view).(ring := RingFeedback(old(view).ring))
    {
      hide EchoInv, Objects, Bufs;
      FeedbackKeeps(view);
      if unsentFeedbackCount >= 1 {
        unsentFeedbackCount := unsentFeedbackCount - 1;
      }
      view := view.(ring := RingFeedback(view.ring));
    }

    /** Free the application's reference to the first `n` buffers from the ring tail on. */
    method FreeSent(n: nat, ghost s: Sys, ghost bs: seq<nat>) returns (ok: bool)
      requires Objects() && ringTail + n <= 128 && |bs| == n
      requires forall i :: 0 <= i < n ==> bs[i] == bufs[ringTail + i].buf
      requires Driver.Inv(s) && multiset(bs) <= s.app && pool.View() == s.pool
      modifies pool`freeStackTop, pool.freeStack, pool.refCount
      ensures ok && Objects() && pool.View() == FreeAll(s, bs).pool
      ensures rx.view == old(rx.view) && tx.view == old(tx.view)
    {
      hide RxQueue.Valid, TxQueue.Valid, Driver.Inv, FreeAll, Release, PoolInv;
      assert bs[..0] == [] && bs[..n] == bs;
      FreeAllNone(s);
      ok := true;
      var i := 0;
      while i < n
        invariant i <= n && ok && Objects()
        invariant multiset(bs[..i]) <= s.app && pool.View() == FreeAll(s, bs[..i]).pool
        invariant rx.view == old(rx.view) && tx.view == old(tx.view)
      {
        FreeAllStep(s, bs, i);
        ok := pool.Free(bufs[ringTail + i].buf);
        i := i + 1;
      }
    }

    /** Hand `size` buffers from the ring tail to the transmit queue. */
    method Offer(size: nat, ghost all: seq<nat>) returns (ok: bool, sent: nat)
      requires Objects() && Backed(pool.View(), tx.view) && ringTail + size <= 128
      requires all == Bufs(bufs[..])[ringTail..ringTail + size] && CallerHoldsAll(pool.View(), tx.view, all)
      modifies tx, tx.slots, tx.cpl, pool`freeStackTop, pool.freeStack, pool.refCount
      ensures ok && Objects()
      ensures (forall i :: 0 <= i < |all| ==> all[i] < |old(pool.View()).refs|) &&
              TxRing.Transmit(old(pool.View()), old(tx.view), all) == Sent(pool.View(), tx.view, sent)
    {
      hide RxQueue.Valid, TxQueue.Valid, TxRing.Transmit, CallerHoldsAll, Backed, PoolInv;
      var bs := Bufs(bufs[ringTail..ringTail + size]);
      assert bs == all;
      ok, sent := tx.Transmit(pool, bs);
    }

    /** Transmit `size` buffers from the ring tail and free what was accepted. */
    method Flush(size: nat) returns (ok: bool)
      requires Valid() && view.ring.ringTail < 128 && 0 < size == SendSize(view.ring)
      modifies Repr()
      ensures ok && Valid() && view == Send(old(view))
    {
      hide EchoInv, Send, Driver.Inv, FreeAll, TxRing.Transmit, CallerHoldsAll, Bufs, PoolInv, TxInv, Backed,
           RxQueue.Valid, TxQueue.Valid;
      SendKeeps(view);
      SendMeans(view);
      ghost var next := Send(view);
      ghost var e := view;
      var sent;
      ok, sent := Offer(size, Oldest(view.ring, size));
      ok := FreeSent(sent, e.sys.(pool := pool.View(), tx := tx.view), Oldest(e.ring, sent));
      Settle(sent, next);
    }

    /** Account for `n` buffers that were sent. */
    method Settle(n: nat, ghost next: Worker)
      requires Objects() && RingCoupled(view.ring) && n <= unsentWorkCount && ringTail + n <= 128
      requires EchoInv(next) && next.ring == RingSend(view.ring, n)
      requires next.sys.pool == pool.View() && next.sys.rx == rx.view && next.sys.tx == tx.view
      modifies this`ringEmptySlots, this`unsentWorkCount, this`ringTail, this`view
      ensures Valid() && view == next
    {
      hide EchoInv, Objects, Bufs;
      ringEmptySlots := ringEmptySlots + n;
      unsentWorkCount := unsentWorkCount - n;
      ringTail := (ringTail + n) % 128;
      view := next;
    }

    /** `if_send_tx`: neither the abort of a bad free nor the error exit is ever taken. */
    method SendTx() returns (ok: bool)
      requires Valid()
      modifies Repr()
      ensures ok && Valid() && view == Send(old(view))
    {
      hide EchoInv, Send, Objects, Driver.Inv, FreeAll, TxRing.Transmit, CallerHoldsAll;
      SendMeans(view);
      ok := true;
      if unsentWorkCount < 1 {
        return;
      }
      var rounded := 128 - ringTail;
      var size := if 1 > rounded then rounded else 1;
      size := if size > unsentWorkCount then unsentWorkCount else size;
      if size > 0 {
        ok := Flush(size);
      }
    }
  }

  /** Fresh parts make a fresh worker. */
  lemma FreshStart(e: Worker, packets: seq<Packet>)
    requires e.sys.pool == Pool(seq(4096, i => i), seq(4096, _ => 0)) && PoolInv(e.sys.pool)
    requires Blank(e.sys.rx) && TxBlank(e.sys.tx) && e.sys.app == multiset{}
    requires |packets| == 128 && e.ring == BlankRing(Bufs(packets))
    ensures EchoInit(e) && EchoInv(e)
  {
    hide PoolInv, Blank, TxBlank, EchoInv;
    EchoInitInv(e);
  }
}
